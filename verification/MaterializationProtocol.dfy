/**
 The materialization protocol as a step machine over any number of threads.

 A thread that needs a shared bean (singleton or session) claims its key under
 the registry lock, constructs the bean outside the lock while it resolves the
 constructor dependencies one after the other, and then stores it, removes the
 claim and wakes all waiters. Prototypes are constructed on the thread's stack
 without a claim. Every step below is one critical section of the source, or
 one step that touches only the thread itself.
 */
module MaterializationProtocol {
  import opened Common
  import opened WaitGraph
  import opened MaterializationTable
  import Digraph

  /** The constructor dependencies of every bean, and which beans are stored. */
  datatype Beans = Beans(deps: Digraph.Graph<Key>, shared: set<Key>)

  function Deps(g: Beans, k: Key): seq<Key> {
    Digraph.Succ(g.deps, k)
  }

  /** A bean under construction and the objects injected so far. */
  datatype Frame = Frame(key: Key, args: seq<nat>)

  datatype Phase =
    | Running
    | Waiting(key: Key, notified: bool)
      // the claim is removed and the lock dropped, but notify_all has not run
    | Notifying(key: Key, outcome: Option<nat>)
      // lifecycle listeners and postConstruct of a stored bean
    | Announcing(key: Key, obj: nat)
      // an exception leaves the current resolve call
    | Unwinding

  datatype Thread = Thread(stack: seq<Frame>, phase: Phase, results: seq<(Key, nat)>)

  datatype State = State(
    materializing: seq<Entry>,
    waits: map<Token, Wait>,
    instances: map<Key, nat>,
    order: seq<Key>,
    completed: seq<Key>,
    nextObject: nat,
    threads: map<Token, Thread>)

  // --- Steps ------------------------------------------------------------------

  predicate OnStack(stack: seq<Frame>, desc: nat) {
    exists i :: 0 <= i < |stack| && stack[i].key.desc == desc
  }

  function Top(stack: seq<Frame>): Frame
    requires stack != []
  {
    stack[|stack| - 1]
  }

  function Pop(stack: seq<Frame>): seq<Frame>
    requires stack != []
  {
    stack[..|stack| - 1]
  }

  function Inject(f: Frame, v: nat): Frame {
    f.(args := f.args + [v])
  }

  /** `k` is what the innermost constructor asks for next, or a request of the application. */
  predicate Requests(g: Beans, stack: seq<Frame>, k: Key) {
    stack == [] ||
    (var f := Top(stack); |f.args| < |Deps(g, f.key)| && Deps(g, f.key)[|f.args|] == k)
  }

  function SetThread(s: State, t: Token, th: Thread): State {
    s.(threads := s.threads[t := th])
  }

  function Deliver(s: State, t: Token, k: Key, v: nat): State
    requires t in s.threads
  {
    var th := s.threads[t];
    SetThread(s, t,
      if th.stack == [] then Thread([], Running, th.results + [(k, v)])
      else Thread(Pop(th.stack) + [Inject(Top(th.stack), v)], Running, th.results))
  }

  function Throw(s: State, t: Token): State
    requires t in s.threads
  {
    SetThread(s, t, s.threads[t].(phase := Unwinding))
  }

  function Push(s: State, t: Token, k: Key): State
    requires t in s.threads
  {
    SetThread(s, t, s.threads[t].(stack := s.threads[t].stack + [Frame(k, [])], phase := Running))
  }

  function Claim(s: State, t: Token, k: Key): State
    requires t in s.threads
  {
    Push(s.(materializing := s.materializing + [Entry(k, t)]), t, k)
  }

  function Block(s: State, t: Token, k: Key): State
    requires t in s.threads
  {
    SetThread(s.(waits := s.waits[t := Wait(k, true)]), t, s.threads[t].(phase := Waiting(k, false)))
  }

  /** Entering the critical section, by a call or by waking up: the own wait edge is cleared. */
  function Enter(s: State, t: Token): State
    requires t in s.threads
  {
    SetThread(s.(waits := s.waits[t := NO_WAIT]), t, s.threads[t].(phase := Running))
  }

  /** One pass through the loop of claimMaterializationOrWait. */
  ghost function Attempt(s: State, t: Token, k: Key): State
    requires t in s.threads
  {
    var stack := s.threads[t].stack;
    match OutcomeOf(s.materializing, s.waits, t, k, k in s.instances, OnStack(stack, k.desc), stack != [])
    case Found => Deliver(s, t, k, s.instances[k])
    case Claimed => Claim(s, t, k)
    case CycleOnThread => Throw(s, t)
    case CycleAcrossThreads => Throw(s, t)
    case MustWait => Block(s, t, k)
  }

  ghost function Resolve(g: Beans, s: State, t: Token, k: Key): State
    requires t in s.threads
  {
    var stack := s.threads[t].stack;
    if k in g.shared then
      if k in s.instances then Deliver(s, t, k, s.instances[k])
      else if OnStack(stack, k.desc) then Throw(Enter(s, t), t)
      else Attempt(Enter(s, t), t, k)
    else if OnStack(stack, k.desc) then Throw(s, t)
    else Push(s, t, k)
  }

  function Recorded(s: State, k: Key): State {
    s.(completed := s.completed + [k], nextObject := s.nextObject + 1)
  }

  function PopFrame(s: State, t: Token): State
    requires t in s.threads && s.threads[t].stack != []
  {
    SetThread(s, t, s.threads[t].(stack := Pop(s.threads[t].stack)))
  }

  function TopKey(s: State, t: Token): Key
    requires t in s.threads && s.threads[t].stack != []
  {
    Top(s.threads[t].stack).key
  }

  function StoreShared(s: State, t: Token, k: Key, v: nat): State
    requires t in s.threads && s.threads[t].stack != []
  {
    var th := s.threads[t];
    SetThread(
      Recorded(s, k).(
        materializing := SwapRemove(s.materializing, k),
        instances := s.instances[k := v],
        order := s.order + [k]),
      t, th.(stack := Pop(th.stack), phase := Notifying(k, Some(v))))
  }

  /** The constructor of the innermost bean returns. */
  function Complete(g: Beans, s: State, t: Token): State
    requires t in s.threads && s.threads[t].stack != []
  {
    var k, v := TopKey(s, t), s.nextObject;
    if k in g.shared then StoreShared(s, t, k, v)
    else Deliver(PopFrame(Recorded(s, k), t), t, k, v)
  }

  /** The constructor of the innermost bean is left by an exception. */
  function Fail(g: Beans, s: State, t: Token): State
    requires t in s.threads && s.threads[t].stack != []
  {
    var th := s.threads[t];
    var k := Top(th.stack).key;
    if k in g.shared then
      SetThread(s.(materializing := SwapRemove(s.materializing, k)), t,
        th.(stack := Pop(th.stack), phase := Notifying(k, None)))
    else SetThread(s, t, th.(stack := Pop(th.stack), phase := Unwinding))
  }

  function Notified(th: Thread): Thread {
    if th.phase.Waiting? then th.(phase := th.phase.(notified := true)) else th
  }

  function NotifyAll(s: State, t: Token): State
    requires t in s.threads && s.threads[t].phase.Notifying?
  {
    var phase := s.threads[t].phase;
    var after := if phase.outcome.Some? then Announcing(phase.key, phase.outcome.value) else Unwinding;
    s.(threads := map u | u in s.threads :: if u == t then s.threads[u].(phase := after) else Notified(s.threads[u]))
  }

  /** A root singleton without dependencies, whose key is new: neither stored nor in flight. */
  predicate MayBind(g: Beans, s: State, k: Key) {
    && k in g.shared && k.scope == None && Deps(g, k) == []
    && k !in s.instances && OwnerOf(s.materializing, k).None?
  }

  /** The bound instance is stored at once. */
  function Bind(s: State, k: Key): State {
    Recorded(s, k).(instances := s.instances[k := s.nextObject], order := s.order + [k])
  }

  datatype Action =
    | AResolve(key: Key)
    | AComplete
    | AFail
    | ANotify
    | AReturn
    | AHookThrow
    | ALeave
    | AWake
      // bindSingleton after start, by the application or from user code of a constructor
    | ABind(key: Key)

  predicate Enabled(g: Beans, s: State, t: Token, a: Action) {
    t in s.threads &&
    var th := s.threads[t];
    match a
    case AResolve(k) => th.phase.Running? && Requests(g, th.stack, k)
    case AComplete => th.phase.Running? && th.stack != [] && |Top(th.stack).args| == |Deps(g, Top(th.stack).key)|
    case AFail => (th.phase.Running? || th.phase.Unwinding?) && th.stack != []
    case ANotify => th.phase.Notifying?
    case AReturn => th.phase.Announcing?
    case AHookThrow => th.phase.Announcing?
    case ALeave => th.phase.Unwinding? && th.stack == []
    case AWake => th.phase.Waiting?
    case ABind(k) => th.phase.Running? && MayBind(g, s, k)
  }

  ghost function Apply(g: Beans, s: State, t: Token, a: Action): State
    requires Enabled(g, s, t, a)
  {
    var th := s.threads[t];
    match a
    case AResolve(k) => Resolve(g, s, t, k)
    case AComplete => Complete(g, s, t)
    case AFail => Fail(g, s, t)
    case ANotify => NotifyAll(s, t)
    case AReturn => Deliver(s, t, th.phase.key, th.phase.obj)
    case AHookThrow => Throw(s, t)
    case ALeave => SetThread(s, t, th.(phase := Running))
    case AWake => Attempt(Enter(s, t), t, th.phase.key)
    case ABind(k) => Bind(s, k)
  }

  // --- Invariant ----------------------------------------------------------------

  /** `v` is what every thread gets for `k`. */
  predicate Built(g: Beans, s: State, k: Key, v: nat) {
    && k in s.completed
    && (k in g.shared ==> k in s.instances && s.instances[k] == v)
  }

  ghost predicate FrameOk(g: Beans, s: State, f: Frame) {
    && |f.args| <= |Deps(g, f.key)|
    && forall j :: 0 <= j < |f.args| ==> Built(g, s, Deps(g, f.key)[j], f.args[j])
  }

  /** Distinct descriptors, each frame requested by the one below it. */
  ghost predicate StackOk(g: Beans, stack: seq<Frame>) {
    && (forall i, j :: 0 <= i < j < |stack| ==> stack[i].key.desc != stack[j].key.desc)
    && (forall i {:trigger stack[..i]} :: 0 < i < |stack| ==> Requests(g, stack[..i], stack[i].key))
  }

  ghost predicate PhaseOk(g: Beans, s: State, t: Token, th: Thread) {
    && (th.phase.Waiting? || th.phase.Notifying? || th.phase.Announcing? ==> Requests(g, th.stack, th.phase.key))
    && (th.phase.Notifying? && th.phase.outcome.Some? ==> Built(g, s, th.phase.key, th.phase.outcome.value))
    && (th.phase.Announcing? ==> Built(g, s, th.phase.key, th.phase.obj))
    && (th.phase.Waiting? ==>
          && th.phase.key in g.shared && !OnStack(th.stack, th.phase.key.desc)
          && t in s.waits && s.waits[t] == Wait(th.phase.key, true))
    && (!th.phase.Waiting? && t in s.waits ==> !s.waits[t].active)
  }

  ghost predicate ThreadOk(g: Beans, s: State, t: Token, th: Thread) {
    && StackOk(g, th.stack)
    && (forall i :: 0 <= i < |th.stack| ==> FrameOk(g, s, th.stack[i]))
    && (forall i :: 0 <= i < |th.results| ==> Built(g, s, th.results[i].0, th.results[i].1))
    && PhaseOk(g, s, t, th)
  }

  predicate HasFrame(stack: seq<Frame>, k: Key) {
    exists i :: 0 <= i < |stack| && stack[i].key == k
  }

  predicate Owns(m: seq<Entry>, t: Token, k: Key) {
    OwnerOf(m, k) == Some(t)
  }

  predicate Constructs(g: Beans, s: State, t: Token, k: Key) {
    t in s.threads && k in g.shared && HasFrame(s.threads[t].stack, k)
  }

  /** In-flight keys are unique, unstored, and owned by the one thread constructing them. */
  ghost predicate ClaimsOk(g: Beans, s: State) {
    && UniqueKeys(s.materializing)
    && (forall t, k :: Owns(s.materializing, t, k) <==> Constructs(g, s, t, k))
    && (forall t, k :: Owns(s.materializing, t, k) ==> k !in s.instances)
  }

  ghost predicate NotifyPending(s: State) {
    exists u :: u in s.threads && s.threads[u].phase.Notifying?
  }

  /** A waiter that has not been notified has an owner to wait for, or a notification is due. */
  ghost predicate WaitersOk(s: State) {
    && s.waits.Keys <= s.threads.Keys && NO_TOKEN !in s.threads
    && Acyclic(Edges(s.materializing, s.waits))
    && forall t :: t in s.threads && s.threads[t].phase.Waiting? && !s.threads[t].phase.notified ==>
         OwnerOf(s.materializing, s.threads[t].phase.key).Some? || NotifyPending(s)
  }

  function SharedOnly(g: Beans, ks: seq<Key>): seq<Key> {
    if ks == [] then []
    else if ks[|ks| - 1] in g.shared then SharedOnly(g, ks[..|ks| - 1]) + [ks[|ks| - 1]]
    else SharedOnly(g, ks[..|ks| - 1])
  }

  ghost predicate OrderOk(g: Beans, s: State) {
    && Digraph.Topological(g.deps, s.completed)
    && s.order == SharedOnly(g, s.completed)
    && NoDuplicates(s.order)
    && (forall k :: k in s.order <==> k in s.instances)
  }

  ghost predicate Inv(g: Beans, s: State) {
    && (forall t :: t in s.threads ==> ThreadOk(g, s, t, s.threads[t]))
    && ClaimsOk(g, s)
    && WaitersOk(s)
    && OrderOk(g, s)
  }

  // --- Every step keeps the invariant ---------------------------------------------

  ghost predicate Extends(s: State, s': State) {
    && (forall k :: k in s.completed ==> k in s'.completed)
    && (forall k :: k in s.instances ==> k in s'.instances && s'.instances[k] == s.instances[k])
  }

  lemma {:induction false} ThreadStaysOk(g: Beans, s: State, s': State, t: Token, th: Thread)
    requires ThreadOk(g, s, t, th) && Extends(s, s')
    requires t in s'.waits ==> t in s.waits && s'.waits[t] == s.waits[t]
    requires th.phase.Waiting? ==> t in s'.waits
    ensures ThreadOk(g, s', t, th)
  {
    forall i | 0 <= i < |th.stack|
      ensures FrameOk(g, s', th.stack[i])
    {
      assert FrameOk(g, s, th.stack[i]);
    }
  }

  /** A change of one thread that neither waits nor starts or ends a claim. */
  lemma {:induction false} ReplaceKeeps(g: Beans, s: State, t: Token, th: Thread)
    requires Inv(g, s) && t in s.threads && !s.threads[t].phase.Notifying?
    requires ThreadOk(g, s, t, th) && !th.phase.Waiting?
    requires forall k :: k in g.shared ==> (HasFrame(th.stack, k) <==> HasFrame(s.threads[t].stack, k))
    ensures Inv(g, SetThread(s, t, th))
  {
    var s' := SetThread(s, t, th);
    forall u | u in s'.threads
      ensures ThreadOk(g, s', u, s'.threads[u])
    {
      ThreadStaysOk(g, s, s', u, s'.threads[u]);
    }
    forall u, k
      ensures Constructs(g, s', u, k) <==> Constructs(g, s, u, k)
    {
    }
    if NotifyPending(s) {
      var u :| u in s.threads && s.threads[u].phase.Notifying?;
      assert s'.threads[u] == s.threads[u];
    }
    assert WaitersOk(s');
  }

  lemma {:induction false} EnterThreadsOk(g: Beans, s: State, t: Token)
    requires Inv(g, s) && t in s.threads && (s.threads[t].phase.Waiting? || s.threads[t].phase.Running?)
    ensures forall u :: u in Enter(s, t).threads ==> ThreadOk(g, Enter(s, t), u, Enter(s, t).threads[u])
  {
    var s' := Enter(s, t);
    forall u | u in s'.threads
      ensures ThreadOk(g, s', u, s'.threads[u])
    {
      assert ThreadOk(g, s, u, s.threads[u]);
      if u == t {
        forall i | 0 <= i < |s.threads[t].stack|
          ensures FrameOk(g, s', s.threads[t].stack[i])
        {
          assert FrameOk(g, s, s.threads[t].stack[i]);
        }
      } else {
        ThreadStaysOk(g, s, s', u, s.threads[u]);
      }
    }
  }

  lemma {:induction false} EnterWaitersOk(g: Beans, s: State, t: Token)
    requires WaitersOk(s) && t in s.threads && (s.threads[t].phase.Waiting? || s.threads[t].phase.Running?)
    ensures WaitersOk(Enter(s, t))
  {
    var s' := Enter(s, t);
    if NotifyPending(s) {
      var u :| u in s.threads && s.threads[u].phase.Notifying?;
      assert s'.threads[u] == s.threads[u];
    }
    SinkEdgesKeepAcyclic(Edges(s.materializing, s.waits), Edges(s'.materializing, s'.waits), t);
  }

  lemma {:induction false} EnterKeeps(g: Beans, s: State, t: Token)
    requires Inv(g, s) && t in s.threads && (s.threads[t].phase.Waiting? || s.threads[t].phase.Running?)
    ensures Inv(g, Enter(s, t))
  {
    EnterThreadsOk(g, s, t);
    SameClaims(g, s, Enter(s, t));
    EnterWaitersOk(g, s, t);
    SameOrder(g, s, Enter(s, t));
  }

  lemma {:induction false} InjectedFrame(g: Beans, s: State, f: Frame, v: nat)
    requires FrameOk(g, s, f) && |f.args| < |Deps(g, f.key)|
    requires Built(g, s, Deps(g, f.key)[|f.args|], v)
    ensures FrameOk(g, s, Inject(f, v))
  {
  }

  lemma {:induction false} SameKeys(g: Beans, stack: seq<Frame>, f: Frame)
    requires stack != [] && StackOk(g, stack) && f.key == Top(stack).key
    ensures StackOk(g, Pop(stack) + [f])
    ensures forall x :: HasFrame(Pop(stack) + [f], x) <==> HasFrame(stack, x)
  {
    var stack' := Pop(stack) + [f];
    assert forall i :: 0 <= i < |stack| ==> stack'[i].key == stack[i].key;
    forall i | 0 < i < |stack|
      ensures Requests(g, stack'[..i], stack'[i].key)
    {
      assert stack'[..i] == stack[..i];
    }
  }

  lemma {:induction false} DeliverKeeps(g: Beans, s: State, t: Token, k: Key, v: nat)
    requires Inv(g, s) && t in s.threads
    requires s.threads[t].phase.Running? || s.threads[t].phase.Announcing?
    requires Requests(g, s.threads[t].stack, k) && Built(g, s, k, v)
    ensures Inv(g, Deliver(s, t, k, v))
  {
    var th := s.threads[t];
    assert ThreadOk(g, s, t, th);
    if th.stack != [] {
      InjectedFrame(g, s, Top(th.stack), v);
      SameKeys(g, th.stack, Inject(Top(th.stack), v));
    }
    ReplaceKeeps(g, s, t, Deliver(s, t, k, v).threads[t]);
  }

  lemma {:induction false} ThrowKeeps(g: Beans, s: State, t: Token)
    requires Inv(g, s) && t in s.threads && (s.threads[t].phase.Running? || s.threads[t].phase.Announcing?)
    ensures Inv(g, Throw(s, t))
  {
    ReplaceKeeps(g, s, t, s.threads[t].(phase := Unwinding));
  }

  lemma {:induction false} PushedFrames(g: Beans, s: State, stack: seq<Frame>, k: Key)
    requires StackOk(g, stack) && Requests(g, stack, k) && !OnStack(stack, k.desc)
    requires forall i :: 0 <= i < |stack| ==> FrameOk(g, s, stack[i])
    ensures var stack' := stack + [Frame(k, [])];
      && StackOk(g, stack')
      && (forall i :: 0 <= i < |stack'| ==> FrameOk(g, s, stack'[i]))
      && (forall x :: HasFrame(stack', x) <==> HasFrame(stack, x) || x == k)
  {
    var stack' := stack + [Frame(k, [])];
    assert forall i :: 0 <= i <= |stack| ==> stack'[..i] == stack[..i];
    forall x
      ensures HasFrame(stack', x) <==> HasFrame(stack, x) || x == k
    {
      if HasFrame(stack, x) {
        var i :| 0 <= i < |stack| && stack[i].key == x;
        assert stack'[i].key == x;
      }
      assert stack'[|stack|].key == k;
    }
  }

  lemma {:induction false} PushPrototypeKeeps(g: Beans, s: State, t: Token, k: Key)
    requires Inv(g, s) && t in s.threads && s.threads[t].phase.Running?
    requires k !in g.shared && Requests(g, s.threads[t].stack, k) && !OnStack(s.threads[t].stack, k.desc)
    ensures Inv(g, Push(s, t, k))
  {
    PushedFrames(g, s, s.threads[t].stack, k);
    ReplaceKeeps(g, s, t, Push(s, t, k).threads[t]);
  }

  lemma {:induction false} ClaimThreadsOk(g: Beans, s: State, t: Token, k: Key)
    requires Inv(g, s) && t in s.threads && s.threads[t].phase.Running?
    requires Requests(g, s.threads[t].stack, k) && !OnStack(s.threads[t].stack, k.desc)
    ensures var s' := Claim(s, t, k); forall u :: u in s'.threads ==> ThreadOk(g, s', u, s'.threads[u])
  {
    var s' := Claim(s, t, k);
    assert ThreadOk(g, s, t, s.threads[t]);
    PushedFrames(g, s, s.threads[t].stack, k);
    forall u | u in s'.threads
      ensures ThreadOk(g, s', u, s'.threads[u])
    {
      assert ThreadOk(g, s, u, s'.threads[u]);
      ThreadStaysOk(g, s, s', u, s'.threads[u]);
    }
  }

  lemma {:induction false} ClaimClaimsOk(g: Beans, s: State, t: Token, k: Key)
    requires ClaimsOk(g, s) && t in s.threads && k in g.shared
    requires k !in s.instances && OwnerOf(s.materializing, k).None?
    ensures ClaimsOk(g, Claim(s, t, k))
    ensures forall x :: OwnerOf(Claim(s, t, k).materializing, x)
                        == if x == k then Some(t) else OwnerOf(s.materializing, x)
  {
    var s' := Claim(s, t, k);
    forall x
      ensures OwnerOf(s'.materializing, x) == if x == k then Some(t) else OwnerOf(s.materializing, x)
      ensures UniqueKeys(s'.materializing)
    {
      PushOwners(s.materializing, Entry(k, t), x);
    }
    var n := |s.threads[t].stack|;
    forall u, x
      ensures Owns(s'.materializing, u, x) <==> Constructs(g, s', u, x)
    {
      assert Owns(s.materializing, u, x) <==> Constructs(g, s, u, x);
      assert Owns(s.materializing, u, k) <==> Constructs(g, s, u, k);
      if u == t {
        assert s'.threads[t].stack[n].key == k;
        assert forall i :: 0 <= i < n ==> s'.threads[t].stack[i] == s.threads[t].stack[i];
      }
    }
    forall u, x | Owns(s'.materializing, u, x)
      ensures x !in s'.instances
    {
      assert x != k ==> Owns(s.materializing, u, x);
    }
  }

  /** A new claim turns waiting threads towards the claiming thread, which does not wait itself. */
  lemma {:induction false} ClaimKeeps(g: Beans, s: State, t: Token, k: Key)
    requires Inv(g, s) && t in s.threads && s.threads[t].phase.Running?
    requires k in g.shared && Requests(g, s.threads[t].stack, k) && !OnStack(s.threads[t].stack, k.desc)
    requires k !in s.instances && OwnerOf(s.materializing, k).None?
    ensures Inv(g, Claim(s, t, k))
  {
    ClaimThreadsOk(g, s, t, k);
    ClaimClaimsOk(g, s, t, k);
    assert ThreadOk(g, s, t, s.threads[t]);
    ClaimWaitersOk(s, t, k);
    SameOrder(g, s, Claim(s, t, k));
  }

  lemma {:induction false} ClaimWaitersOk(s: State, t: Token, k: Key)
    requires WaitersOk(s) && t in s.threads && s.threads[t].phase.Running?
    requires t in s.waits ==> !s.waits[t].active
    requires forall x :: OwnerOf(Claim(s, t, k).materializing, x) == if x == k then Some(t) else OwnerOf(s.materializing, x)
    ensures WaitersOk(Claim(s, t, k))
  {
    var s' := Claim(s, t, k);
    if NotifyPending(s) {
      var u :| u in s.threads && s.threads[u].phase.Notifying?;
      assert s'.threads[u] == s.threads[u];
    }
    SinkEdgesKeepAcyclic(Edges(s.materializing, s.waits), Edges(s'.materializing, s'.waits), t);
  }

  /** A thread that constructs nothing cannot be the end of a wait path that starts at an owner. */
  lemma {:induction false} IdleThreadUnreachable(g: Beans, s: State, t: Token, k: Key)
    requires Inv(g, s) && t in s.threads && s.threads[t].stack == []
    requires OwnerOf(s.materializing, k).Some?
    ensures !Reaches(Edges(s.materializing, s.waits), OwnerOf(s.materializing, k).value, t)
  {
    var o := OwnerOf(s.materializing, k).value;
    OwnerIsListed(s.materializing, k);
    if n: nat :| Follow(Edges(s.materializing, s.waits), o, n) == Some(t) {
      PathStaysInOwners(s.materializing, s.waits, o, n);
      var i :| 0 <= i < |s.materializing| && s.materializing[i].owner == t;
      UniqueOwner(s.materializing, i);
      assert Owns(s.materializing, t, s.materializing[i].key);
    }
  }

  lemma {:induction false} BlockThreadsOk(g: Beans, s: State, t: Token, k: Key)
    requires Inv(g, s) && t in s.threads
    requires k in g.shared && Requests(g, s.threads[t].stack, k) && !OnStack(s.threads[t].stack, k.desc)
    ensures var s' := Block(s, t, k); forall u :: u in s'.threads ==> ThreadOk(g, s', u, s'.threads[u])
  {
    var s' := Block(s, t, k);
    forall u | u in s'.threads
      ensures ThreadOk(g, s', u, s'.threads[u])
    {
      assert ThreadOk(g, s, u, s.threads[u]);
      if u == t {
        forall i | 0 <= i < |s.threads[t].stack|
          ensures FrameOk(g, s', s.threads[t].stack[i])
        {
          assert FrameOk(g, s, s.threads[t].stack[i]);
        }
      } else {
        ThreadStaysOk(g, s, s', u, s.threads[u]);
      }
    }
  }

  lemma {:induction false} SameClaims(g: Beans, s: State, s': State)
    requires ClaimsOk(g, s) && s'.materializing == s.materializing && s'.instances == s.instances
    requires s'.threads.Keys == s.threads.Keys
    requires forall u :: u in s.threads ==> s'.threads[u].stack == s.threads[u].stack
    ensures ClaimsOk(g, s')
  {
    forall u, x
      ensures Constructs(g, s', u, x) <==> Constructs(g, s, u, x)
    {
    }
  }

  /** A new wait edge never closes a cycle. */
  lemma {:induction false} BlockWaitersOk(s: State, t: Token, k: Key)
    requires WaitersOk(s) && t in s.threads && s.threads[t].phase.Running?
    requires t in s.waits ==> !s.waits[t].active
    requires OwnerOf(s.materializing, k).Some?
    requires !Reaches(Edges(s.materializing, s.waits), OwnerOf(s.materializing, k).value, t)
    ensures WaitersOk(Block(s, t, k))
  {
    var s' := Block(s, t, k);
    if NotifyPending(s) {
      var u :| u in s.threads && s.threads[u].phase.Notifying?;
      assert s'.threads[u] == s.threads[u];
    }
    var before := Edges(s.materializing, s.waits);
    AddEdgeKeepsAcyclic(before, t, OwnerOf(s.materializing, k).value);
    assert Edges(s'.materializing, s'.waits) == before[t := OwnerOf(s.materializing, k).value];
  }

  lemma {:induction false} BlockKeeps(g: Beans, s: State, t: Token, k: Key)
    requires Inv(g, s) && t in s.threads && s.threads[t].phase.Running?
    requires k in g.shared && Requests(g, s.threads[t].stack, k) && !OnStack(s.threads[t].stack, k.desc)
    requires OwnerOf(s.materializing, k).Some?
    requires s.threads[t].stack != [] ==>
               !Reaches(Edges(s.materializing, s.waits), OwnerOf(s.materializing, k).value, t)
    ensures Inv(g, Block(s, t, k))
  {
    var s' := Block(s, t, k);
    BlockThreadsOk(g, s, t, k);
    SameClaims(g, s, s');
    if s.threads[t].stack == [] {
      IdleThreadUnreachable(g, s, t, k);
    }
    assert ThreadOk(g, s, t, s.threads[t]);
    BlockWaitersOk(s, t, k);
    SameOrder(g, s, s');
  }

  lemma {:induction false} AttemptKeeps(g: Beans, s: State, t: Token, k: Key)
    requires Inv(g, s) && t in s.threads && s.threads[t].phase.Running?
    requires k in g.shared && Requests(g, s.threads[t].stack, k) && !OnStack(s.threads[t].stack, k.desc)
    ensures Inv(g, Attempt(s, t, k))
  {
    var stack := s.threads[t].stack;
    match OutcomeOf(s.materializing, s.waits, t, k, k in s.instances, OnStack(stack, k.desc), stack != [])
    case Found =>
      InstanceIsBuilt(g, s, k);
      DeliverKeeps(g, s, t, k, s.instances[k]);
    case Claimed => ClaimKeeps(g, s, t, k);
    case CycleOnThread => ThrowKeeps(g, s, t);
    case CycleAcrossThreads => ThrowKeeps(g, s, t);
    case MustWait => BlockKeeps(g, s, t, k);
  }

  lemma {:induction false} SharedOnlyMembers(g: Beans, ks: seq<Key>, k: Key)
    ensures k in SharedOnly(g, ks) <==> k in ks && k in g.shared
  {
    if ks != [] {
      SharedOnlyMembers(g, ks[..|ks| - 1], k);
      assert ks == ks[..|ks| - 1] + [ks[|ks| - 1]];
    }
  }

  lemma {:induction false} InstanceIsBuilt(g: Beans, s: State, k: Key)
    requires OrderOk(g, s) && k in s.instances
    ensures Built(g, s, k, s.instances[k])
  {
    SharedOnlyMembers(g, s.completed, k);
  }

  lemma {:induction false} ResolveKeeps(g: Beans, s: State, t: Token, k: Key)
    requires Inv(g, s) && Enabled(g, s, t, AResolve(k))
    ensures Inv(g, Resolve(g, s, t, k))
  {
    if k in g.shared {
      if k in s.instances {
        InstanceIsBuilt(g, s, k);
        DeliverKeeps(g, s, t, k, s.instances[k]);
      } else {
        EnterKeeps(g, s, t);
        if OnStack(s.threads[t].stack, k.desc) {
          ThrowKeeps(g, Enter(s, t), t);
        } else {
          AttemptKeeps(g, Enter(s, t), t, k);
        }
      }
    } else if OnStack(s.threads[t].stack, k.desc) {
      ThrowKeeps(g, s, t);
    } else {
      PushPrototypeKeeps(g, s, t, k);
    }
  }

  lemma {:induction false} PoppedKeys(g: Beans, stack: seq<Frame>, x: Key)
    requires stack != [] && StackOk(g, stack)
    ensures HasFrame(Pop(stack), x) <==> HasFrame(stack, x) && x != Top(stack).key
  {
    var n := |stack| - 1;
    if HasFrame(Pop(stack), x) {
      var i :| 0 <= i < n && Pop(stack)[i].key == x;
      assert stack[i].key == x;
      assert stack[i].key.desc != stack[n].key.desc;
    }
    if HasFrame(stack, x) && x != Top(stack).key {
      var i :| 0 <= i <= n && stack[i].key == x;
      assert Pop(stack)[i].key == x;
    }
  }

  lemma {:induction false} PoppedFrames(g: Beans, stack: seq<Frame>)
    requires stack != [] && StackOk(g, stack)
    ensures StackOk(g, Pop(stack)) && Requests(g, Pop(stack), Top(stack).key)
    ensures forall x :: HasFrame(Pop(stack), x) <==> HasFrame(stack, x) && x != Top(stack).key
  {
    var n := |stack| - 1;
    assert forall i :: 0 <= i <= n ==> Pop(stack)[..i] == stack[..i];
    if n > 0 {
      assert Requests(g, stack[..n], stack[n].key);
    }
    forall x
      ensures HasFrame(Pop(stack), x) <==> HasFrame(stack, x) && x != Top(stack).key
    {
      PoppedKeys(g, stack, x);
    }
  }

  /** Removing the claim of the innermost bean together with its frame. */
  lemma {:induction false} ReleaseClaimsOk(g: Beans, s: State, s': State, t: Token)
    requires ClaimsOk(g, s) && t in s.threads && s.threads[t].stack != [] && StackOk(g, s.threads[t].stack)
    requires var k := TopKey(s, t);
      && k in g.shared && s'.materializing == SwapRemove(s.materializing, k)
      && s'.threads.Keys == s.threads.Keys && s'.threads[t].stack == Pop(s.threads[t].stack)
      && s'.instances.Keys <= s.instances.Keys + {k}
    requires forall u :: u in s.threads && u != t ==> s'.threads[u] == s.threads[u]
    ensures ClaimsOk(g, s')
    ensures forall x :: OwnerOf(s'.materializing, x)
              == if x == TopKey(s, t) then None else OwnerOf(s.materializing, x)
  {
    var stack := s.threads[t].stack;
    var k := Top(stack).key;
    PoppedFrames(g, stack);
    assert stack[|stack| - 1].key == k;
    forall x
      ensures OwnerOf(s'.materializing, x) == if x == k then None else OwnerOf(s.materializing, x)
      ensures UniqueKeys(s'.materializing)
    {
      SwapRemoveOwners(s.materializing, k, x);
    }
    forall u, x
      ensures Owns(s'.materializing, u, x) <==> Constructs(g, s', u, x)
    {
      assert Owns(s.materializing, u, x) <==> Constructs(g, s, u, x);
      assert Owns(s.materializing, t, k) <==> Constructs(g, s, t, k);
    }
    forall u, x | Owns(s'.materializing, u, x)
      ensures x !in s'.instances
    {
      assert Owns(s.materializing, u, x);
    }
  }

  /** Waiters of the released key stay covered by the notification that is still due. */
  lemma {:induction false} ReleaseWaitersOk(s: State, s': State, t: Token, k: Key)
    requires WaitersOk(s) && t in s.threads && t in s'.threads && s'.threads[t].phase.Notifying?
    requires s'.waits == s.waits && s'.threads.Keys == s.threads.Keys
    requires forall x :: OwnerOf(s'.materializing, x) == if x == k then None else OwnerOf(s.materializing, x)
    requires t in s.waits ==> !s.waits[t].active
    ensures WaitersOk(s')
  {
    SinkEdgesKeepAcyclic(Edges(s.materializing, s.waits), Edges(s'.materializing, s'.waits), t);
  }

  lemma {:induction false} FailSharedKeeps(g: Beans, s: State, t: Token)
    requires Inv(g, s) && Enabled(g, s, t, AFail) && TopKey(s, t) in g.shared
    ensures Inv(g, Fail(g, s, t))
  {
    var s' := Fail(g, s, t);
    assert ThreadOk(g, s, t, s.threads[t]);
    FailSharedThreadsOk(g, s, t);
    ReleaseClaimsOk(g, s, s', t);
    ReleaseWaitersOk(s, s', t, TopKey(s, t));
    SameOrder(g, s, s');
  }

  lemma {:induction false} FailSharedThreadsOk(g: Beans, s: State, t: Token)
    requires Inv(g, s) && Enabled(g, s, t, AFail) && TopKey(s, t) in g.shared
    ensures var s' := Fail(g, s, t); forall u :: u in s'.threads ==> ThreadOk(g, s', u, s'.threads[u])
  {
    var s' := Fail(g, s, t);
    assert ThreadOk(g, s, t, s.threads[t]);
    PoppedThreadOk(g, s, t, s.threads[t]);
    forall u | u in s'.threads
      ensures ThreadOk(g, s', u, s'.threads[u])
    {
      ThreadStaysOk(g, s, s', u, if u == t then Popped(s.threads[t]) else s.threads[u]);
    }
  }

  lemma {:induction false} FailPrototypeKeeps(g: Beans, s: State, t: Token)
    requires Inv(g, s) && Enabled(g, s, t, AFail) && TopKey(s, t) !in g.shared
    ensures Inv(g, Fail(g, s, t))
  {
    assert ThreadOk(g, s, t, s.threads[t]);
    PoppedFrames(g, s.threads[t].stack);
    ReplaceKeeps(g, s, t, Fail(g, s, t).threads[t]);
  }

  /** A finished constructor has all its dependencies behind it in the completion order. */
  lemma {:induction false} CompletionIsTopological(g: Beans, s: State, f: Frame)
    requires OrderOk(g, s) && FrameOk(g, s, f) && |f.args| == |Deps(g, f.key)|
    ensures Digraph.Topological(g.deps, s.completed + [f.key])
    ensures SharedOnly(g, s.completed + [f.key]) == s.order + (if f.key in g.shared then [f.key] else [])
  {
    var ks := s.completed + [f.key];
    forall i, d | 0 <= i < |ks| && d in Deps(g, ks[i])
      ensures d in ks[..i]
    {
      if i == |s.completed| {
        var j :| 0 <= j < |f.args| && Deps(g, f.key)[j] == d;
        assert Built(g, s, Deps(g, f.key)[j], f.args[j]);
        assert ks[..i] == s.completed;
      } else {
        assert ks[..i] == s.completed[..i];
      }
    }
    assert ks[..|ks| - 1] == s.completed;
  }

  lemma {:induction false} CompleteSharedOrderOk(g: Beans, s: State, t: Token)
    requires Inv(g, s) && Enabled(g, s, t, AComplete) && TopKey(s, t) in g.shared
    ensures OrderOk(g, Complete(g, s, t))
    ensures TopKey(s, t) !in s.instances
  {
    var f := Top(s.threads[t].stack);
    assert ThreadOk(g, s, t, s.threads[t]);
    assert s.threads[t].stack[|s.threads[t].stack| - 1] == f;
    assert Constructs(g, s, t, f.key);
    assert Owns(s.materializing, t, f.key);
    CompletionIsTopological(g, s, f);
  }

  lemma {:induction false} CompleteSharedThreadsOk(g: Beans, s: State, t: Token)
    requires Inv(g, s) && Enabled(g, s, t, AComplete) && TopKey(s, t) in g.shared
    requires TopKey(s, t) !in s.instances
    ensures var s' := Complete(g, s, t); forall u :: u in s'.threads ==> ThreadOk(g, s', u, s'.threads[u])
  {
    var s' := Complete(g, s, t);
    assert ThreadOk(g, s, t, s.threads[t]);
    PoppedThreadOk(g, s, t, s.threads[t]);
    forall u | u in s'.threads
      ensures ThreadOk(g, s', u, s'.threads[u])
    {
      ThreadStaysOk(g, s, s', u, if u == t then Popped(s.threads[t]) else s.threads[u]);
    }
  }

  /** The thread as its innermost bean leaves the stack. */
  function Popped(th: Thread): Thread
    requires th.stack != []
  {
    th.(stack := Pop(th.stack), phase := Unwinding)
  }

  lemma {:induction false} PoppedThreadOk(g: Beans, s: State, t: Token, th: Thread)
    requires ThreadOk(g, s, t, th) && th.stack != [] && !th.phase.Waiting?
    ensures ThreadOk(g, s, t, Popped(th)) && Requests(g, Pop(th.stack), Top(th.stack).key)
  {
    PoppedFrames(g, th.stack);
  }

  lemma {:induction false} SameOrder(g: Beans, s: State, s': State)
    requires OrderOk(g, s) && s'.completed == s.completed && s'.order == s.order && s'.instances == s.instances
    ensures OrderOk(g, s')
  {
  }

  /** Storing a finished bean: the slot was empty, and the claim leaves the in-flight list. */
  lemma {:induction false} CompleteSharedKeeps(g: Beans, s: State, t: Token)
    requires Inv(g, s) && Enabled(g, s, t, AComplete) && TopKey(s, t) in g.shared
    ensures Inv(g, Complete(g, s, t))
  {
    var s' := Complete(g, s, t);
    CompleteSharedOrderOk(g, s, t);
    CompleteSharedThreadsOk(g, s, t);
    assert ThreadOk(g, s, t, s.threads[t]);
    ReleaseClaimsOk(g, s, s', t);
    ReleaseWaitersOk(s, s', t, TopKey(s, t));
  }

  lemma {:induction false} RecordPrototypeKeeps(g: Beans, s: State, t: Token)
    requires Inv(g, s) && Enabled(g, s, t, AComplete) && TopKey(s, t) !in g.shared
    ensures Inv(g, Recorded(s, TopKey(s, t)))
  {
    var f := Top(s.threads[t].stack);
    var s1 := Recorded(s, f.key);
    assert ThreadOk(g, s, t, s.threads[t]);
    CompletionIsTopological(g, s, f);
    forall u | u in s1.threads
      ensures ThreadOk(g, s1, u, s1.threads[u])
    {
      ThreadStaysOk(g, s, s1, u, s1.threads[u]);
    }
    SameClaims(g, s, s1);
    assert WaitersOk(s1);
  }

  lemma {:induction false} PopPrototypeKeeps(g: Beans, s: State, t: Token)
    requires Inv(g, s) && t in s.threads && s.threads[t].phase.Running?
    requires s.threads[t].stack != [] && TopKey(s, t) !in g.shared
    ensures Inv(g, PopFrame(s, t))
    ensures Requests(g, Pop(s.threads[t].stack), TopKey(s, t))
  {
    assert ThreadOk(g, s, t, s.threads[t]);
    PoppedFrames(g, s.threads[t].stack);
    ReplaceKeeps(g, s, t, s.threads[t].(stack := Pop(s.threads[t].stack)));
  }

  lemma {:induction false} DeliverPrototypeKeeps(g: Beans, s: State, t: Token, k: Key, v: nat)
    requires Inv(g, s) && t in s.threads && s.threads[t].phase.Running?
    requires s.threads[t].stack != [] && k == TopKey(s, t) && k !in g.shared && k in s.completed
    ensures Inv(g, Deliver(PopFrame(s, t), t, k, v))
  {
    PopPrototypeKeeps(g, s, t);
    DeliverKeeps(g, PopFrame(s, t), t, k, v);
  }

  lemma {:induction false} CompletePrototypeKeeps(g: Beans, s: State, t: Token)
    requires Inv(g, s) && Enabled(g, s, t, AComplete) && TopKey(s, t) !in g.shared
    ensures Inv(g, Complete(g, s, t))
  {
    RecordPrototypeKeeps(g, s, t);
    DeliverPrototypeKeeps(g, Recorded(s, TopKey(s, t)), t, TopKey(s, t), s.nextObject);
  }

  lemma {:induction false} NotifyThreadsOk(g: Beans, s: State, t: Token)
    requires Inv(g, s) && Enabled(g, s, t, ANotify)
    ensures var s' := NotifyAll(s, t); forall u :: u in s'.threads ==> ThreadOk(g, s', u, s'.threads[u])
  {
    var s' := NotifyAll(s, t);
    forall u | u in s'.threads
      ensures ThreadOk(g, s', u, s'.threads[u])
    {
      assert ThreadOk(g, s, u, s.threads[u]);
      assert ThreadOk(g, s, u, s'.threads[u]);
      ThreadStaysOk(g, s, s', u, s'.threads[u]);
    }
  }

  lemma {:induction false} NotifyKeeps(g: Beans, s: State, t: Token)
    requires Inv(g, s) && Enabled(g, s, t, ANotify)
    ensures Inv(g, NotifyAll(s, t))
  {
    var s' := NotifyAll(s, t);
    NotifyThreadsOk(g, s, t);
    SameClaims(g, s, s');
    assert s'.threads.Keys == s.threads.Keys;
    assert WaitersOk(s');
    SameOrder(g, s, s');
  }

  lemma {:induction false} BindOrderOk(g: Beans, s: State, k: Key)
    requires OrderOk(g, s) && MayBind(g, s, k)
    ensures OrderOk(g, Bind(s, k))
  {
    var ks := s.completed + [k];
    assert Digraph.Succ(g.deps, k) == Deps(g, k) == [];
    forall i, d | 0 <= i < |ks| && d in Digraph.Succ(g.deps, ks[i])
      ensures d in ks[..i]
    {
      assert i < |s.completed| && ks[..i] == s.completed[..i];
    }
    assert ks[..|ks| - 1] == s.completed;
  }

  lemma {:induction false} BindClaimsOk(g: Beans, s: State, k: Key)
    requires ClaimsOk(g, s) && MayBind(g, s, k)
    ensures ClaimsOk(g, Bind(s, k))
  {
    var s' := Bind(s, k);
    forall u, x
      ensures Constructs(g, s', u, x) <==> Constructs(g, s, u, x)
    {
    }
    forall u, x | Owns(s'.materializing, u, x)
      ensures x !in s'.instances
    {
      assert Owns(s.materializing, u, x);
    }
  }

  lemma {:induction false} BindKeeps(g: Beans, s: State, k: Key)
    requires Inv(g, s) && MayBind(g, s, k)
    ensures Inv(g, Bind(s, k))
  {
    var s' := Bind(s, k);
    BindOrderOk(g, s, k);
    forall u | u in s'.threads
      ensures ThreadOk(g, s', u, s'.threads[u])
    {
      ThreadStaysOk(g, s, s', u, s.threads[u]);
    }
    BindClaimsOk(g, s, k);
    assert NotifyPending(s) ==> NotifyPending(s');
    assert WaitersOk(s');
  }

  /** Every step of every thread keeps the invariant. */
  lemma {:induction false} StepKeeps(g: Beans, s: State, t: Token, a: Action)
    requires Inv(g, s) && Enabled(g, s, t, a)
    ensures Inv(g, Apply(g, s, t, a))
  {
    var th := s.threads[t];
    assert ThreadOk(g, s, t, th);
    match a
    case AResolve(k) => ResolveKeeps(g, s, t, k);
    case AComplete =>
      if Top(th.stack).key in g.shared {
        CompleteSharedKeeps(g, s, t);
      } else {
        CompletePrototypeKeeps(g, s, t);
      }
    case AFail =>
      if Top(th.stack).key in g.shared {
        FailSharedKeeps(g, s, t);
      } else {
        FailPrototypeKeeps(g, s, t);
      }
    case ANotify => NotifyKeeps(g, s, t);
    case AReturn => DeliverKeeps(g, s, t, th.phase.key, th.phase.obj);
    case AHookThrow => ThrowKeeps(g, s, t);
    case ALeave => ReplaceKeeps(g, s, t, th.(phase := Running));
    case AWake =>
      EnterKeeps(g, s, t);
      AttemptKeeps(g, Enter(s, t), t, th.phase.key);
    case ABind(k) => BindKeeps(g, s, k);
  }
}
