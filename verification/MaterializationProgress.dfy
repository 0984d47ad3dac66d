/**
 Progress of the materialization protocol: whatever the threads do, short of
 new requests, new bindings and spurious wake-ups, only finitely many steps
 follow, and when none is left every request has returned or thrown.
 */
module MaterializationProgress {
  import opened Common
  import opened WaitGraph
  import opened MaterializationTable
  import opened MaterializationProtocol
  import opened MaterializationTheorems
  import Digraph

  /** A step that is not a new request or binding of the application and not a spurious wake-up. */
  predicate Settles(g: Beans, s: State, t: Token, a: Action) {
    Enabled(g, s, t, a) &&
    match a
    case AResolve(_) => s.threads[t].stack != []
    case ABind(_) => false
    case AWake => s.threads[t].phase.notified
    case _ => true
  }

  // --- The work a thread has left -----------------------------------------------------

  ghost function Widest(deps: Digraph.Graph<Key>): (w: nat)
    ensures forall k: Key :: |Digraph.Succ(deps, k)| <= w
  {
    if deps == map[] then 0
    else
      var k :| k in deps;
      var w := Widest(deps - {k});
      assert forall x: Key :: x != k ==> Digraph.Succ(deps, x) == Digraph.Succ(deps - {k}, x);
      if |deps[k]| <= w then w else |deps[k]|
  }

  /** A stack is at most this high, since its beans are distinct and all but the innermost have dependencies. */
  function MaxHeight(g: Beans): nat {
    |g.deps| + 1
  }

  /** An upper bound on the work behind one request made with n beans on the stack. */
  ghost function RequestWork(g: Beans, n: nat): (w: nat)
    ensures w >= 8
    decreases MaxHeight(g) - n
  {
    if n >= MaxHeight(g) then 8 else Widest(g.deps) * RequestWork(g, n + 1) + 8
  }

  /** The requests a bean still has to make when `started` of them are under way. */
  function Left(g: Beans, f: Frame, started: nat): nat {
    if |f.args| + started <= |Deps(g, f.key)| then |Deps(g, f.key)| - |f.args| - started else 0
  }

  /** The work of the beans on a stack; each but the innermost has one request under way, and that one `started`. */
  ghost function StackWork(g: Beans, stack: seq<Frame>, started: nat): (w: nat)
    ensures w >= 6 * |stack|
  {
    if stack == [] then 0
    else StackWork(g, Pop(stack), 1) + Left(g, Top(stack), started) * RequestWork(g, |stack|) + 6
  }

  ghost function Work(g: Beans, th: Thread): nat {
    match th.phase
    case Running => if th.stack == [] then 0 else StackWork(g, th.stack, 0) + 1
    case Waiting(_, _) => if th.stack == [] then RequestWork(g, 0) else StackWork(g, th.stack, 0)
    case Notifying(_, outcome) => if outcome.Some? then StackWork(g, th.stack, 1) + 3 else 2 * |th.stack| + 2
    case Announcing(_, _) => StackWork(g, th.stack, 1) + 2
    case Unwinding => 2 * |th.stack| + 1
  }

  lemma {:induction false} TimesMonotonic(a: nat, b: nat, c: nat)
    requires a <= b
    ensures a * c <= b * c
  {
  }

  lemma {:induction false} TimesSuccessor(a: nat, c: nat)
    requires a > 0
    ensures a * c == (a - 1) * c + c
  {
  }

  /** Starting the next request of the innermost bean, and having it delivered, each account for its work. */
  lemma {:induction false} StartedWork(g: Beans, stack: seq<Frame>)
    requires stack != [] && |Top(stack).args| < |Deps(g, Top(stack).key)|
    ensures StackWork(g, stack, 0) == StackWork(g, stack, 1) + RequestWork(g, |stack|)
  {
    TimesSuccessor(Left(g, Top(stack), 0), RequestWork(g, |stack|));
  }

  lemma {:induction false} DeliveredWork(g: Beans, stack: seq<Frame>, v: nat)
    requires stack != [] && |Top(stack).args| < |Deps(g, Top(stack).key)|
    ensures StackWork(g, Pop(stack) + [Inject(Top(stack), v)], 0) == StackWork(g, stack, 1)
  {
    var stack' := Pop(stack) + [Inject(Top(stack), v)];
    assert Pop(stack') == Pop(stack);
    assert Left(g, Top(stack'), 0) == Left(g, Top(stack), 1);
  }

  lemma {:induction false} DistinctWithin(ks: seq<Key>, all: set<Key>)
    requires forall i :: 0 <= i < |ks| ==> ks[i] in all
    requires forall i, j :: 0 <= i < j < |ks| ==> ks[i] != ks[j]
    ensures |ks| <= |all|
    decreases |ks|
  {
    if ks != [] {
      var last := ks[|ks| - 1];
      DistinctWithin(ks[..|ks| - 1], all - {last});
    }
  }

  /** A bean with a request to make stands at most as high as there are beans with dependencies. */
  lemma {:induction false} HeightBound(g: Beans, stack: seq<Frame>, k: Key)
    requires StackOk(g, stack) && Requests(g, stack, k)
    ensures |stack| < MaxHeight(g)
  {
    var ks := seq(|stack|, i requires 0 <= i < |stack| => stack[i].key);
    forall i | 0 <= i < |ks|
      ensures ks[i] in g.deps.Keys
    {
      if i + 1 < |stack| {
        assert Requests(g, stack[..i + 1], stack[i + 1].key);
        assert Top(stack[..i + 1]) == stack[i];
      } else {
        assert Top(stack) == stack[i];
      }
    }
    DistinctWithin(ks, g.deps.Keys);
    assert |g.deps.Keys| == |g.deps|;
  }

  /** Building the requested bean fits within the work of the request. */
  lemma {:induction false} PushedWork(g: Beans, stack: seq<Frame>, k: Key)
    requires StackOk(g, stack) && Requests(g, stack, k)
    ensures var pushed := StackWork(g, stack + [Frame(k, [])], 0);
      && pushed + 2 <= StackWork(g, stack, 1) + RequestWork(g, |stack|)
      && (stack != [] ==> pushed + 2 <= StackWork(g, stack, 0))
      && (stack == [] ==> pushed + 2 <= RequestWork(g, 0))
  {
    var stack' := stack + [Frame(k, [])];
    assert Pop(stack') == stack;
    HeightBound(g, stack, k);
    assert |Digraph.Succ(g.deps, k)| <= Widest(g.deps);
    TimesMonotonic(Left(g, Top(stack'), 0), Widest(g.deps), RequestWork(g, |stack| + 1));
    if stack != [] {
      StartedWork(g, stack);
    }
  }

  // --- Every settling step leaves less ------------------------------------------------

  lemma {:induction false} DeliverWork(g: Beans, s: State, t: Token, k: Key, v: nat)
    requires t in s.threads && Requests(g, s.threads[t].stack, k)
    ensures Work(g, Deliver(s, t, k, v).threads[t]) <= StackWork(g, s.threads[t].stack, 1) + 1
  {
    var stack := s.threads[t].stack;
    if stack != [] {
      DeliveredWork(g, stack, v);
    }
  }

  /** A pass of the claim loop: it blocks, or what is left is less than before. */
  lemma {:induction false} AttemptWork(g: Beans, s: State, t: Token, k: Key)
    requires t in s.threads && StackOk(g, s.threads[t].stack) && Requests(g, s.threads[t].stack, k)
    ensures var th, th' := s.threads[t], Attempt(s, t, k).threads[t];
      th' == th.(phase := Waiting(k, false))
      || Work(g, th') < if th.stack == [] then RequestWork(g, 0) else StackWork(g, th.stack, 0)
  {
    var stack := s.threads[t].stack;
    match OutcomeOf(s.materializing, s.waits, t, k, k in s.instances, OnStack(stack, k.desc), stack != [])
    case Found =>
      DeliverWork(g, s, t, k, s.instances[k]);
      if stack != [] {
        StartedWork(g, stack);
      }
    case Claimed => PushedWork(g, stack, k);
    case _ =>
  }

  lemma {:induction false} ResolveWork(g: Beans, s: State, t: Token, k: Key)
    requires t in s.threads && s.threads[t].phase.Running? && s.threads[t].stack != []
    requires StackOk(g, s.threads[t].stack) && Requests(g, s.threads[t].stack, k)
    ensures Work(g, Resolve(g, s, t, k).threads[t]) < Work(g, s.threads[t])
  {
    var stack := s.threads[t].stack;
    if k in g.shared && k in s.instances {
      StartedWork(g, stack);
      DeliverWork(g, s, t, k, s.instances[k]);
    } else if !OnStack(stack, k.desc) {
      if k in g.shared {
        AttemptWork(g, Enter(s, t), t, k);
      } else {
        PushedWork(g, stack, k);
      }
    }
  }

  lemma {:induction false} FinishedWork(g: Beans, stack: seq<Frame>)
    requires stack != [] && |Top(stack).args| == |Deps(g, Top(stack).key)|
    ensures StackWork(g, stack, 0) == StackWork(g, Pop(stack), 1) + 6
  {
  }

  lemma {:induction false} RequestBelow(g: Beans, stack: seq<Frame>)
    requires stack != [] && StackOk(g, stack)
    ensures Requests(g, Pop(stack), Top(stack).key)
  {
    if |stack| > 1 {
      assert Requests(g, stack[..|stack| - 1], stack[|stack| - 1].key);
    }
  }

  lemma {:induction false} CompleteWork(g: Beans, s: State, t: Token)
    requires Enabled(g, s, t, AComplete) && StackOk(g, s.threads[t].stack)
    ensures Work(g, Complete(g, s, t).threads[t]) < Work(g, s.threads[t])
  {
    var stack := s.threads[t].stack;
    var k := TopKey(s, t);
    FinishedWork(g, stack);
    if k !in g.shared {
      RequestBelow(g, stack);
      DeliverWork(g, PopFrame(Recorded(s, k), t), t, k, s.nextObject);
    }
  }

  lemma {:induction false} WakeWork(g: Beans, s: State, t: Token, k: Key)
    requires t in s.threads && s.threads[t].phase == Waiting(k, true)
    requires StackOk(g, s.threads[t].stack) && Requests(g, s.threads[t].stack, k)
    ensures var th, th' := s.threads[t], Attempt(Enter(s, t), t, k).threads[t];
      Work(g, th') < Work(g, th) || th' == th.(phase := Waiting(k, false))
  {
    AttemptWork(g, Enter(s, t), t, k);
  }

  lemma {:induction false} FailWork(g: Beans, s: State, t: Token)
    requires Enabled(g, s, t, AFail)
    ensures Work(g, Fail(g, s, t).threads[t]) < Work(g, s.threads[t])
  {
  }

  /** The acting thread has less to do, or has consumed its notification. */
  lemma {:induction false} OwnWork(g: Beans, s: State, t: Token, a: Action)
    requires Settles(g, s, t, a) && ThreadOk(g, s, t, s.threads[t])
    ensures var th, th' := s.threads[t], Apply(g, s, t, a).threads[t];
      Work(g, th') < Work(g, th)
      || (a.AWake? && th.phase.Waiting? && th.phase.notified && th' == th.(phase := Waiting(th.phase.key, false)))
  {
    var th := s.threads[t];
    match a
    case AResolve(k) => ResolveWork(g, s, t, k);
    case AComplete => CompleteWork(g, s, t);
    case AFail => FailWork(g, s, t);
    case AReturn => DeliverWork(g, s, t, th.phase.key, th.phase.obj);
    case AWake => WakeWork(g, s, t, th.phase.key);
    case _ =>
  }

  predicate OthersSame(s: State, s': State, t: Token) {
    s'.threads.Keys == s.threads.Keys && forall u :: u in s.threads && u != t ==> s'.threads[u] == s.threads[u]
  }

  lemma {:induction false} ResolveOthers(g: Beans, s: State, t: Token, k: Key)
    requires t in s.threads
    ensures OthersSame(s, Resolve(g, s, t, k), t)
  {
    AttemptOthers(Enter(s, t), t, k);
  }

  lemma {:induction false} AttemptOthers(s: State, t: Token, k: Key)
    requires t in s.threads
    ensures OthersSame(s, Attempt(s, t, k), t)
  {
  }

  /** The other threads are as before, or notified. */
  lemma {:induction false} OtherWork(g: Beans, s: State, t: Token, a: Action, u: Token)
    requires Enabled(g, s, t, a) && u in s.threads && u != t
    ensures var s' := Apply(g, s, t, a);
      && u in s'.threads
      && s'.threads[u] == (if a.ANotify? then Notified(s.threads[u]) else s.threads[u])
      && Work(g, s'.threads[u]) == Work(g, s.threads[u])
  {
    match a
    case AResolve(k) => ResolveOthers(g, s, t, k);
    case AWake => AttemptOthers(Enter(s, t), t, s.threads[t].phase.key);
    case _ =>
  }

  // --- Sums over threads ----------------------------------------------------------------

  ghost function AnyOf(f: map<Token, nat>): Token
    requires f != map[]
    ensures AnyOf(f) in f
  {
    var t :| t in f;
    t
  }

  ghost function Sum(f: map<Token, nat>): nat {
    if f == map[] then 0 else f[AnyOf(f)] + Sum(f - {AnyOf(f)})
  }

  lemma {:induction false} SumSplits(f: map<Token, nat>, t: Token)
    requires t in f
    ensures Sum(f) == f[t] + Sum(f - {t})
    decreases |f|
  {
    var u := AnyOf(f);
    if u != t {
      SumSplits(f - {u}, t);
      SumSplits(f - {t}, u);
      assert (f - {u}) - {t} == (f - {t}) - {u};
    }
  }

  /** One summand changes. */
  lemma {:induction false} SumChanges(f: map<Token, nat>, f': map<Token, nat>, t: Token)
    requires t in f && f'.Keys == f.Keys && forall u :: u in f && u != t ==> f'[u] == f[u]
    ensures Sum(f') - f'[t] == Sum(f) - f[t]
  {
    SumSplits(f, t);
    SumSplits(f', t);
    assert f - {t} == f' - {t};
  }

  lemma {:induction false} SumOfFlags(f: map<Token, nat>)
    requires forall t :: t in f ==> f[t] <= 1
    ensures Sum(f) <= |f|
    decreases |f|
  {
    if f != map[] {
      var t := AnyOf(f);
      SumOfFlags(f - {t});
      assert |f - {t}| == |f| - 1 by {
        assert (f - {t}).Keys == f.Keys - {t};
      }
    }
  }

  ghost function Works(g: Beans, s: State): map<Token, nat> {
    map t | t in s.threads :: Work(g, s.threads[t])
  }

  function FlagOf(th: Thread): nat {
    if th.phase.Waiting? && th.phase.notified then 1 else 0
  }

  ghost function Flags(s: State): map<Token, nat> {
    map t | t in s.threads :: FlagOf(s.threads[t])
  }

  /** A bound on the settling steps that can follow. */
  ghost function Rank(g: Beans, s: State): nat {
    Combined(Sum(Works(g, s)), |s.threads|, Sum(Flags(s)))
  }

  /** Orders by `work` first and, where that is equal, by `flags`, which are at most n. */
  function Combined(work: nat, n: nat, flags: nat): nat {
    work * (n + 1) + flags
  }

  lemma {:induction false} FlagsBound(s: State)
    ensures Sum(Flags(s)) <= |s.threads|
  {
    SumOfFlags(Flags(s));
    assert Flags(s).Keys == s.threads.Keys;
    assert |Flags(s).Keys| == |Flags(s)| && |s.threads.Keys| == |s.threads|;
  }

  lemma {:induction false} LessWorkLessRank(w: nat, w': nat, n: nat, f: nat, f': nat)
    requires w' < w && f' <= n
    ensures Combined(w', n, f') < Combined(w, n, f)
  {
    TimesMonotonic(w', w - 1, n + 1);
    TimesSuccessor(w, n + 1);
  }

  lemma {:induction false} WorksDecrease(g: Beans, s: State, s': State, t: Token)
    requires t in s.threads && s'.threads.Keys == s.threads.Keys
    requires forall u :: u in s.threads && u != t ==> Work(g, s'.threads[u]) == Work(g, s.threads[u])
    requires Work(g, s'.threads[t]) < Work(g, s.threads[t])
    ensures Sum(Works(g, s')) < Sum(Works(g, s))
  {
    var w, w' := Works(g, s), Works(g, s');
    assert w[t] == Work(g, s.threads[t]) && w'[t] == Work(g, s'.threads[t]);
    SumChanges(w, w', t);
  }

  lemma {:induction false} LessWorkDecreases(g: Beans, s: State, s': State)
    requires s'.threads.Keys == s.threads.Keys && Sum(Works(g, s')) < Sum(Works(g, s))
    ensures Rank(g, s') < Rank(g, s)
  {
    var n: nat := |s.threads|;
    assert |s'.threads| == n by {
      assert |s'.threads.Keys| == |s'.threads| && |s.threads.Keys| == |s.threads|;
    }
    FlagsBound(s');
    LessWorkLessRank(Sum(Works(g, s)), Sum(Works(g, s')), n, Sum(Flags(s)), Sum(Flags(s')));
  }

  lemma {:induction false} SameWorks(g: Beans, s: State, s': State, t: Token, k: Key)
    requires t in s.threads && s.threads[t].phase == Waiting(k, true)
    requires s'.threads == s.threads[t := s.threads[t].(phase := Waiting(k, false))]
    ensures s'.threads.Keys == s.threads.Keys && Works(g, s') == Works(g, s)
  {
    assert Work(g, s'.threads[t]) == Work(g, s.threads[t]);
  }

  lemma {:induction false} LostNotificationDecreases(g: Beans, s: State, s': State, t: Token, k: Key)
    requires t in s.threads && s.threads[t].phase == Waiting(k, true)
    requires s'.threads == s.threads[t := s.threads[t].(phase := Waiting(k, false))]
    ensures Rank(g, s') < Rank(g, s)
  {
    SameWorks(g, s, s', t, k);
    assert |s'.threads| == |s.threads| by {
      assert |s'.threads.Keys| == |s'.threads| && |s.threads.Keys| == |s.threads|;
    }
    var f, f' := Flags(s), Flags(s');
    SumChanges(f, f', t);
  }

  lemma {:induction false} KeysKept(g: Beans, s: State, t: Token, a: Action)
    requires Enabled(g, s, t, a)
    ensures Apply(g, s, t, a).threads.Keys == s.threads.Keys
  {
    match a
    case AResolve(k) => ResolveOthers(g, s, t, k);
    case AWake => AttemptOthers(Enter(s, t), t, s.threads[t].phase.key);
    case _ =>
  }

  /** Every settling step of every thread lowers the rank. */
  lemma {:induction false} SettlingStepDecreases(g: Beans, s: State, t: Token, a: Action)
    requires Inv(g, s) && Settles(g, s, t, a)
    ensures Rank(g, Apply(g, s, t, a)) < Rank(g, s)
  {
    assert ThreadOk(g, s, t, s.threads[t]);
    OwnWork(g, s, t, a);
    OthersWork(g, s, t, a);
    if Work(g, Apply(g, s, t, a).threads[t]) < Work(g, s.threads[t]) {
      WorksDecrease(g, s, Apply(g, s, t, a), t);
      LessWorkDecreases(g, s, Apply(g, s, t, a));
    } else {
      LostNotificationDecreases(g, s, Apply(g, s, t, a), t, s.threads[t].phase.key);
    }
  }

  lemma {:induction false} OthersWork(g: Beans, s: State, t: Token, a: Action)
    requires Enabled(g, s, t, a)
    ensures var s' := Apply(g, s, t, a);
      && s'.threads.Keys == s.threads.Keys
      && (forall u :: u in s.threads && u != t ==> Work(g, s'.threads[u]) == Work(g, s.threads[u]))
      && (!a.ANotify? ==> s'.threads == s.threads[t := s'.threads[t]])
  {
    var s' := Apply(g, s, t, a);
    KeysKept(g, s, t, a);
    forall u | u in s.threads && u != t
      ensures Work(g, s'.threads[u]) == Work(g, s.threads[u])
      ensures !a.ANotify? ==> s'.threads[u] == s.threads[u]
    {
      OtherWork(g, s, t, a, u);
    }
  }

  // --- Runs that settle -------------------------------------------------------------------

  ghost predicate SettlingRun(g: Beans, states: seq<State>, steps: seq<(Token, Action)>) {
    && |states| == |steps| + 1
    && forall i :: 0 <= i < |steps| ==>
         Settles(g, states[i], steps[i].0, steps[i].1)
         && states[i + 1] == Apply(g, states[i], steps[i].0, steps[i].1)
  }

  /**
   Under any schedule, and whichever constructors and hooks throw, a registry
   that gets no new requests makes only so many steps: no thread can keep
   waiting, waking up and waiting again.
   */
  lemma {:induction false} SettlingRunIsBounded(g: Beans, states: seq<State>, steps: seq<(Token, Action)>)
    requires SettlingRun(g, states, steps) && Inv(g, states[0])
    ensures |steps| + Rank(g, states[|steps|]) <= Rank(g, states[0]) && Inv(g, states[|steps|])
    decreases |steps|
  {
    if steps != [] {
      var n := |steps| - 1;
      SettlingRunIsBounded(g, states[..n + 1], steps[..n]);
      assert Settles(g, states[n], steps[n].0, steps[n].1);
      SettlingStepDecreases(g, states[n], steps[n].0, steps[n].1);
      StepKeeps(g, states[n], steps[n].0, steps[n].1);
    }
  }

  /** No request is under way: every one has been answered or has thrown. */
  predicate AllIdle(s: State) {
    forall t :: t in s.threads ==> s.threads[t].stack == [] && s.threads[t].phase.Running?
  }

  ghost predicate IsSettled(g: Beans, s: State) {
    forall t, a :: !Settles(g, s, t, a)
  }

  /** The steps end exactly when no request is under way. */
  lemma {:induction false} SettledIffIdle(g: Beans, s: State)
    requires Inv(g, s)
    ensures IsSettled(g, s) <==> AllIdle(s)
  {
    if !AllIdle(s) {
      var t :| t in s.threads && !(s.threads[t].stack == [] && s.threads[t].phase.Running?);
      var th := s.threads[t];
      if th.phase.Waiting? {
        var u, a := WaiterHasDueStep(g, s, t);
        assert Settles(g, s, u, a);
      } else if th.stack != [] {
        var a := BusyThreadHasStep(g, s, t);
        assert Settles(g, s, t, a);
      } else {
        var a := match th.phase case Notifying(_, _) => ANotify case Announcing(_, _) => AReturn case _ => ALeave;
        assert Settles(g, s, t, a);
      }
    }
  }

  lemma {:induction false} SettlingRunGrows(
    g: Beans, s: State, t: Token, a: Action, states: seq<State>, steps: seq<(Token, Action)>)
    requires Settles(g, s, t, a) && SettlingRun(g, states, steps) && states[0] == Apply(g, s, t, a)
    ensures SettlingRun(g, [s] + states, [(t, a)] + steps)
  {
    var all, moves := [s] + states, [(t, a)] + steps;
    forall i | 0 <= i < |moves|
      ensures Settles(g, all[i], moves[i].0, moves[i].1) && all[i + 1] == Apply(g, all[i], moves[i].0, moves[i].1)
    {
      if i > 0 {
        assert moves[i] == steps[i - 1] && all[i] == states[i - 1] && all[i + 1] == states[i];
      }
    }
  }

  lemma {:induction false} NextSettlingStep(g: Beans, s: State) returns (t: Token, a: Action)
    requires Inv(g, s) && !AllIdle(s)
    ensures Settles(g, s, t, a) && Inv(g, Apply(g, s, t, a)) && Rank(g, Apply(g, s, t, a)) < Rank(g, s)
  {
    SettledIffIdle(g, s);
    t, a :| Settles(g, s, t, a);
    SettlingStepDecreases(g, s, t, a);
    StepKeeps(g, s, t, a);
  }

  lemma {:induction false} CanSettle(g: Beans, s: State) returns (states: seq<State>, steps: seq<(Token, Action)>)
    requires Inv(g, s)
    ensures SettlingRun(g, states, steps) && states[0] == s && AllIdle(states[|steps|])
    decreases Rank(g, s)
  {
    if AllIdle(s) {
      states, steps := [s], [];
    } else {
      var t, a := NextSettlingStep(g, s);
      var states', steps' := CanSettle(g, Apply(g, s, t, a));
      SettlingRunGrows(g, s, t, a, states', steps');
      states, steps := [s] + states', [(t, a)] + steps';
      assert states[|steps|] == states'[|steps'|];
    }
  }

  /**
   From every reachable state, runs of settling steps are bounded, and they can
   be continued exactly until every thread is idle.
   */
  lemma {:induction false} EveryRequestEnds(g: Beans, states: seq<State>, steps: seq<(Token, Action)>)
    requires SettlingRun(g, states, steps) && Reachable(g, states[0])
    ensures |steps| <= Rank(g, states[0])
    ensures AllIdle(states[|steps|]) <==> forall t, a :: !Settles(g, states[|steps|], t, a)
    ensures |steps| == Rank(g, states[0]) ==> AllIdle(states[|steps|])
  {
    ReachableOk(g, states[0]);
    SettlingRunIsBounded(g, states, steps);
    var s := states[|steps|];
    SettledIffIdle(g, s);
    assert IsSettled(g, s) <==> forall t, a :: !Settles(g, s, t, a);
    if |steps| == Rank(g, states[0]) && !IsSettled(g, s) {
      var t, a :| Settles(g, s, t, a);
      SettlingStepDecreases(g, s, t, a);
    }
  }
}
