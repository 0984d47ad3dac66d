/**
 The lock-free freelist of prototype slots, as a step machine: pops and pushes
 of any number of threads are interleaved between the loads, the stores and
 the compare-exchanges of their loops.
 */
module TreiberFreelist {
  import opened Common

  type Slot = nat
  type Token = nat

  /** The packed head: generation in the high half, slot in the low half; None is kInvalidSlotId. */
  datatype Word = Word(generation: nat, slot: Option<Slot>)

  datatype Pc =
    | Idle
    | PopLoaded(seen: Word)
    | PopRead(seen: Word, next: Option<Slot>)
      // the freelist was empty: a fresh slot is added under the grow mutex
    | Growing
    | PushLoaded(slot: Slot, generation: nat, seen: Word)
    | PushStored(slot: Slot, generation: nat, seen: Word)

  /** `owned` counts for every slot how often it was handed out and not yet linked back. */
  datatype State = State(
    count: nat,
    next: map<Slot, Option<Slot>>,
    generations: map<Slot, nat>,
    head: Word,
    owned: multiset<Slot>,
    threads: map<Token, Pc>)

  datatype Action =
    | PopLoad
    | PopNext
    | PopCas(spurious: bool)
    | Grow
    | PushLoad(slot: Slot, bump: bool)
    | PushStore
    | PushCas(spurious: bool)

  function NextOf(s: State, x: Slot): Option<Slot> {
    if x in s.next then s.next[x] else None
  }

  function GenerationOf(s: State, x: Slot): nat {
    if x in s.generations then s.generations[x] else 0
  }

  predicate Pops(pc: Pc) {
    pc.PopLoaded? || pc.PopRead?
  }

  predicate Pushes(pc: Pc, x: Slot) {
    (pc.PushLoaded? || pc.PushStored?) && pc.slot == x
  }

  predicate Returns(s: State, t: Token, x: Slot) {
    t in s.threads && Pushes(s.threads[t], x)
  }

  function At(s: State, t: Token, pc: Pc): State {
    s.(threads := s.threads[t := pc])
  }

  /** What the pop loop does with a freshly loaded head. */
  function Loaded(head: Word): Pc {
    if head.slot.None? then Growing else PopLoaded(head)
  }

  /** A slot is given back by the one holder it was handed to. */
  predicate Enabled(s: State, t: Token, a: Action) {
    t in s.threads &&
    var pc := s.threads[t];
    match a
    case PopLoad => pc.Idle?
    case PopNext => pc.PopLoaded? && pc.seen.slot.Some?
    case PopCas(_) => pc.PopRead? && pc.seen.slot.Some?
    case Grow => pc.Growing?
    case PushLoad(x, _) => pc.Idle? && x in s.owned && forall u :: u in s.threads ==> !Returns(s, u, x)
    case PushStore => pc.PushLoaded?
    case PushCas(_) => pc.PushStored?
  }

  function Apply(s: State, t: Token, a: Action): State
    requires Enabled(s, t, a)
  {
    var pc := s.threads[t];
    match a
    case PopLoad => At(s, t, Loaded(s.head))
    case PopNext => At(s, t, PopRead(pc.seen, NextOf(s, pc.seen.slot.value)))
    case PopCas(spurious) =>
      if !spurious && s.head == pc.seen
      then At(s.(head := Word(0, pc.next), owned := s.owned + multiset{pc.seen.slot.value}), t, Idle)
      else At(s, t, Loaded(s.head))
    case Grow => At(s.(count := s.count + 1, owned := s.owned + multiset{s.count}), t, Idle)
    case PushLoad(x, bump) =>
      var generation := GenerationOf(s, x) + (if bump then 1 else 0);
      At(s.(generations := s.generations[x := generation]), t, PushLoaded(x, generation, s.head))
    case PushStore =>
      At(s.(next := s.next[pc.slot := pc.seen.slot]), t, PushStored(pc.slot, pc.generation, pc.seen))
    case PushCas(spurious) =>
      if !spurious && s.head == pc.seen
      then At(s.(head := Word(pc.generation, Some(pc.slot)), owned := s.owned - multiset{pc.slot}), t, Idle)
      else At(s, t, PushLoaded(pc.slot, pc.generation, s.head))
  }

  // --- Invariant -----------------------------------------------------------------------

  predicate Distinct(free: seq<Slot>) {
    forall i, j :: 0 <= i < j < |free| ==> free[i] != free[j]
  }

  function HeadOf(free: seq<Slot>): Option<Slot> {
    if free == [] then None else Some(free[0])
  }

  predicate Linked(s: State, free: seq<Slot>) {
    forall i :: 0 <= i < |free| ==> NextOf(s, free[i]) == HeadOf(free[i + 1..])
  }

  /** Every slot is either in the list, once, or handed out, once. */
  ghost predicate ListOk(s: State, free: seq<Slot>) {
    && Distinct(free)
    && Linked(s, free)
    && s.head.slot == HeadOf(free)
    && (forall i :: 0 <= i < |free| ==> free[i] < s.count)
    && forall x: Slot :: s.owned[x] == if x < s.count && x !in free then 1 else 0
  }

  ghost predicate PushesOk(s: State) {
    && (forall t: Token, x: Slot :: Returns(s, t, x) ==> x in s.owned)
    && (forall t: Token, u: Token, x: Slot :: Returns(s, t, x) && Returns(s, u, x) ==> t == u)
    && (forall t :: t in s.threads && s.threads[t].PushStored? ==>
          NextOf(s, s.threads[t].slot) == s.threads[t].seen.slot)
  }

  /** The slot a pop is about to take is still in the list, and the successor read from it is current. */
  ghost predicate PopsOk(s: State, free: seq<Slot>) {
    forall t :: t in s.threads && Pops(s.threads[t]) ==>
      && s.threads[t].seen.slot.Some?
      && s.threads[t].seen.slot.value in free
      && (s.threads[t].PopRead? ==> s.threads[t].next == NextOf(s, s.threads[t].seen.slot.value))
  }

  ghost predicate Inv(s: State, free: seq<Slot>) {
    ListOk(s, free) && PushesOk(s) && PopsOk(s, free)
  }

  ghost predicate OnePop(s: State) {
    forall t, u :: t in s.threads && u in s.threads && Pops(s.threads[t]) && Pops(s.threads[u]) ==> t == u
  }

  ghost predicate WellFormed(s: State) {
    exists free :: ListOk(s, free)
  }

  /** The list after a step that does not interfere with a pop. */
  function FreeAfter(s: State, t: Token, a: Action, free: seq<Slot>): seq<Slot>
    requires Enabled(s, t, a)
  {
    var pc := s.threads[t];
    match a
    case PopCas(spurious) => if !spurious && s.head == pc.seen && free != [] then free[1..] else free
    case PushCas(spurious) => if !spurious && s.head == pc.seen then [pc.slot] + free else free
    case _ => free
  }

  lemma {:induction false} PopCasKeepsList(s: State, t: Token, free: seq<Slot>)
    requires ListOk(s, free) && Enabled(s, t, PopCas(false)) && s.head == s.threads[t].seen
    requires s.threads[t].next == NextOf(s, s.head.slot.value)
    ensures free != [] && ListOk(Apply(s, t, PopCas(false)), free[1..])
  {
    var s', rest := Apply(s, t, PopCas(false)), free[1..];
    forall i | 0 <= i < |rest|
      ensures NextOf(s', rest[i]) == HeadOf(rest[i + 1..])
    {
      assert rest[i + 1..] == free[i + 1 + 1..];
      assert NextOf(s, free[i + 1]) == HeadOf(free[i + 1 + 1..]);
    }
    forall x: Slot
      ensures s'.owned[x] == if x < s'.count && x !in rest then 1 else 0
    {
      assert free == [free[0]] + rest;
      assert s.owned[x] == if x < s.count && x !in free then 1 else 0;
      HeadIsSlot(s, free);
    }
  }

  lemma {:induction false} HeadIsSlot(s: State, free: seq<Slot>)
    requires ListOk(s, free) && free != []
    ensures free[0] < s.count && s.owned[free[0]] == 0
  {
  }

  lemma {:induction false} PushCasKeepsList(s: State, t: Token, free: seq<Slot>)
    requires ListOk(s, free) && PushesOk(s) && Enabled(s, t, PushCas(false)) && s.head == s.threads[t].seen
    ensures ListOk(Apply(s, t, PushCas(false)), [s.threads[t].slot] + free)
  {
    var s', x := Apply(s, t, PushCas(false)), s.threads[t].slot;
    var longer := [x] + free;
    assert Returns(s, t, x);
    assert s.owned[x] == 1 && x !in free;
    forall i | 0 <= i < |longer|
      ensures NextOf(s', longer[i]) == HeadOf(longer[i + 1..])
    {
      if i == 0 {
        assert longer[1..] == free;
      } else {
        assert longer[i + 1..] == free[i - 1 + 1..];
      }
    }
  }

  lemma {:induction false} OtherStepKeepsList(s: State, t: Token, a: Action, free: seq<Slot>)
    requires ListOk(s, free) && PushesOk(s) && Enabled(s, t, a)
    requires FreeAfter(s, t, a, free) == free && (a == PopCas(false) ==> s.head != s.threads[t].seen)
    ensures ListOk(Apply(s, t, a), free)
  {
    var s' := Apply(s, t, a);
    if a == PushStore {
      var x := s.threads[t].slot;
      assert Returns(s, t, x);
      assert x !in free;
      forall i | 0 <= i < |free|
        ensures NextOf(s', free[i]) == HeadOf(free[i + 1..])
      {
        assert free[i] in free;
      }
    } else {
      assert forall x :: NextOf(s', x) == NextOf(s, x);
    }
  }

  /** A step changes what its own thread gives back, and nothing else. */
  lemma {:induction false} OthersReturn(s: State, t: Token, a: Action, u: Token, x: Slot)
    requires Enabled(s, t, a) && u != t
    ensures Returns(Apply(s, t, a), u, x) <==> Returns(s, u, x)
  {
  }

  lemma {:induction false} OwnReturn(s: State, t: Token, a: Action, free: seq<Slot>, x: Slot)
    requires ListOk(s, free) && PushesOk(s) && Enabled(s, t, a) && Returns(Apply(s, t, a), t, x)
    ensures x in Apply(s, t, a).owned && forall u: Token :: u != t ==> !Returns(s, u, x)
  {
    if !a.PushLoad? {
      assert Returns(s, t, x);
    }
  }

  /** A finished push gives back one slot, and only that one. */
  lemma {:induction false} OwnedBySomeoneElse(s: State, t: Token, a: Action, free: seq<Slot>, u: Token, x: Slot)
    requires ListOk(s, free) && PushesOk(s) && Enabled(s, t, a) && u != t && Returns(s, u, x)
    ensures x in Apply(s, t, a).owned
  {
    var pc := s.threads[t];
    if pc.PushStored? {
      assert Returns(s, t, pc.slot);
    }
  }

  lemma {:induction false} StepKeepsPushes(s: State, t: Token, a: Action, free: seq<Slot>)
    requires ListOk(s, free) && PushesOk(s) && Enabled(s, t, a)
    ensures PushesOk(Apply(s, t, a))
  {
    var s' := Apply(s, t, a);
    forall u: Token, x: Slot | Returns(s', u, x)
      ensures x in s'.owned
    {
      if u == t {
        OwnReturn(s, t, a, free, x);
      } else {
        OthersReturn(s, t, a, u, x);
        OwnedBySomeoneElse(s, t, a, free, u, x);
      }
    }
    forall u: Token, v: Token, x: Slot | Returns(s', u, x) && Returns(s', v, x)
      ensures u == v
    {
      UniqueReturn(s, t, a, free, u, v, x);
    }
    StoredLinksStay(s, t, a, free);
  }

  lemma {:induction false} UniqueReturn(s: State, t: Token, a: Action, free: seq<Slot>, u: Token, v: Token, x: Slot)
    requires ListOk(s, free) && PushesOk(s) && Enabled(s, t, a)
    requires Returns(Apply(s, t, a), u, x) && Returns(Apply(s, t, a), v, x)
    ensures u == v
  {
    if u == t || v == t {
      OwnReturn(s, t, a, free, x);
    }
    if u != t {
      OthersReturn(s, t, a, u, x);
    }
    if v != t {
      OthersReturn(s, t, a, v, x);
    }
  }

  lemma {:induction false} StoredLinksStay(s: State, t: Token, a: Action, free: seq<Slot>)
    requires ListOk(s, free) && PushesOk(s) && Enabled(s, t, a)
    ensures var s' := Apply(s, t, a);
      forall u :: u in s'.threads && s'.threads[u].PushStored? ==> NextOf(s', s'.threads[u].slot) == s'.threads[u].seen.slot
  {
    var s' := Apply(s, t, a);
    forall u | u in s'.threads && s'.threads[u].PushStored?
      ensures NextOf(s', s'.threads[u].slot) == s'.threads[u].seen.slot
    {
      if u != t {
        assert Returns(s, u, s'.threads[u].slot);
        if a == PushStore {
          assert Returns(s, t, s.threads[t].slot);
        }
      }
    }
  }

  /** Only a pop shortens the list, and only a push writes a link, of a slot outside the list. */
  lemma {:induction false} ListSurvives(s: State, t: Token, a: Action, free: seq<Slot>, x: Slot)
    requires ListOk(s, free) && PushesOk(s) && Enabled(s, t, a) && !Pops(s.threads[t]) && x in free
    ensures x in FreeAfter(s, t, a, free) && NextOf(Apply(s, t, a), x) == NextOf(s, x)
  {
    if a == PushStore {
      assert Returns(s, t, s.threads[t].slot);
    }
  }

  lemma {:induction false} StepKeepsPops(s: State, t: Token, a: Action, free: seq<Slot>)
    requires Inv(s, free) && OnePop(s) && Enabled(s, t, a)
    ensures PopsOk(Apply(s, t, a), FreeAfter(s, t, a, free))
  {
    var s', pc, free' := Apply(s, t, a), s.threads[t], FreeAfter(s, t, a, free);
    forall u | u in s'.threads && Pops(s'.threads[u])
      ensures s'.threads[u].seen.slot.Some? && s'.threads[u].seen.slot.value in free'
      ensures s'.threads[u].PopRead? ==> s'.threads[u].next == NextOf(s', s'.threads[u].seen.slot.value)
    {
      if u != t {
        assert Pops(s.threads[u]);
        ListSurvives(s, t, a, free, s.threads[u].seen.slot.value);
      } else {
        OwnPop(s, t, a, free);
      }
    }
  }

  lemma {:induction false} OwnPop(s: State, t: Token, a: Action, free: seq<Slot>)
    requires Inv(s, free) && Enabled(s, t, a) && Pops(Apply(s, t, a).threads[t])
    ensures var s', pc := Apply(s, t, a), Apply(s, t, a).threads[t];
      && pc.seen.slot.Some? && pc.seen.slot.value in FreeAfter(s, t, a, free)
      && (pc.PopRead? ==> pc.next == NextOf(s', pc.seen.slot.value))
  {
    assert s.head.slot.Some? ==> s.head.slot.value in free;
  }

  /** With at most one pop in flight, every step of any thread keeps the list and the slots apart. */
  lemma {:induction false} StepKeeps(s: State, t: Token, a: Action, free: seq<Slot>)
    requires Inv(s, free) && OnePop(s) && Enabled(s, t, a)
    ensures Inv(Apply(s, t, a), FreeAfter(s, t, a, free))
  {
    var pc := s.threads[t];
    if a == PopCas(false) && s.head == pc.seen {
      assert Pops(pc);
      PopCasKeepsList(s, t, free);
    } else if a == PushCas(false) && s.head == pc.seen {
      PushCasKeepsList(s, t, free);
    } else {
      OtherStepKeepsList(s, t, a, free);
    }
    StepKeepsPushes(s, t, a, free);
    StepKeepsPops(s, t, a, free);
  }

  /** A store that has handed out nothing yet. */
  ghost predicate Init(s: State) {
    && s.count == 0 && s.next == map[] && s.generations == map[] && s.head == Word(0, None) && s.owned == multiset{}
    && forall t :: t in s.threads ==> s.threads[t] == Idle
  }

  ghost predicate Run(states: seq<State>, steps: seq<(Token, Action)>) {
    |states| == |steps| + 1 &&
    forall i :: 0 <= i < |steps| ==>
      Enabled(states[i], steps[i].0, steps[i].1) && states[i + 1] == Apply(states[i], steps[i].0, steps[i].1)
  }

  lemma {:induction false} RunKeeps(states: seq<State>, steps: seq<(Token, Action)>, i: nat) returns (free: seq<Slot>)
    requires Run(states, steps) && Init(states[0]) && i <= |steps|
    requires forall j :: 0 <= j < i ==> OnePop(states[j])
    ensures Inv(states[i], free)
    decreases i
  {
    if i == 0 {
      free := [];
    } else {
      free := RunKeeps(states, steps, i - 1);
      StepKeeps(states[i - 1], steps[i - 1].0, steps[i - 1].1, free);
      free := FreeAfter(states[i - 1], steps[i - 1].0, steps[i - 1].1, free);
    }
  }

  /**
   While no two pops are ever in flight together, whatever pushes do meanwhile,
   no slot is handed out twice and none is lost.
   */
  lemma {:induction false} SlotsAreExclusive(states: seq<State>, steps: seq<(Token, Action)>)
    requires Run(states, steps) && Init(states[0])
    requires forall j :: 0 <= j < |steps| ==> OnePop(states[j])
    ensures WellFormed(states[|steps|])
    ensures forall x: Slot :: states[|steps|].owned[x] <= 1
  {
    var free := RunKeeps(states, steps, |steps|);
  }

  // --- Exactly when a pop is safe ----------------------------------------------------------

  lemma {:induction false} ListsAgree(s: State, a: seq<Slot>, b: seq<Slot>, i: nat)
    requires Linked(s, a) && Linked(s, b) && HeadOf(a) == HeadOf(b) && i <= |a| && i <= |b|
    ensures a[..i] == b[..i] && HeadOf(a[i..]) == HeadOf(b[i..])
    decreases i
  {
    if i == 0 {
      assert a[0..] == a && b[0..] == b;
    } else {
      ListsAgree(s, a, b, i - 1);
      assert a[i - 1..][0] == a[i - 1] && b[i - 1..][0] == b[i - 1];
      assert a[..i] == a[..i - 1] + [a[i - 1]] && b[..i] == b[..i - 1] + [b[i - 1]];
    }
  }

  /** Two lists with the same slots that are linked by the same fields start with the same slot. */
  lemma {:induction false} SameSlotsSameHead(s: State, a: seq<Slot>, b: seq<Slot>)
    requires Linked(s, a) && Linked(s, b) && Distinct(a) && Distinct(b)
    requires forall x :: x in a <==> x in b
    ensures HeadOf(a) == HeadOf(b)
  {
    if b != [] {
      assert b[0] in a;
    }
    if a != [] {
      assert a[0] in b;
      var i :| 0 <= i < |b| && b[i] == a[0];
      var j :| 0 <= j < |a| && a[j] == b[0];
      if i > 0 {
        // b reaches a's first slot after i links, and a comes back to b's first slot after j more
        SuffixLinked(s, b, i);
        SuffixLinked(s, a, j);
        SameLength(s, a, b[i..]);
        SameLength(s, b, a[j..]);
      }
    }
  }

  lemma {:induction false} SuffixLinked(s: State, a: seq<Slot>, i: nat)
    requires Linked(s, a) && i <= |a|
    ensures Linked(s, a[i..])
  {
    var r := a[i..];
    forall k | 0 <= k < |r|
      ensures NextOf(s, r[k]) == HeadOf(r[k + 1..])
    {
      assert r[k + 1..] == a[i + k + 1..];
    }
  }

  lemma {:induction false} SameLength(s: State, a: seq<Slot>, b: seq<Slot>)
    requires Linked(s, a) && Linked(s, b) && HeadOf(a) == HeadOf(b)
    ensures |a| == |b|
  {
    var n := if |a| < |b| then |a| else |b|;
    assert a[|a|..] == [] && b[|b|..] == [];
    ListsAgree(s, a, b, n);
  }

  lemma {:induction false} SlotAccounts(s: State, t: Token, free: seq<Slot>, other: seq<Slot>, x: Slot)
    requires ListOk(s, free) && Enabled(s, t, PopCas(false)) && s.head == s.threads[t].seen
    requires ListOk(Apply(s, t, PopCas(false)), other)
    ensures free != [] && (x in other <==> x in free[1..])
  {
    var s' := Apply(s, t, PopCas(false));
    assert s'.owned[x] == s.owned[x] + (if x == free[0] then 1 else 0);
    assert s.owned[x] == if x < s.count && x !in free then 1 else 0;
    assert s'.owned[x] == if x < s.count && x !in other then 1 else 0;
    HeadIsSlot(s, free);
    assert free == [free[0]] + free[1..];
  }

  lemma {:induction false} SafePopReadCurrent(s: State, t: Token, free: seq<Slot>, other: seq<Slot>)
    requires ListOk(s, free) && Enabled(s, t, PopCas(false)) && s.head == s.threads[t].seen
    requires ListOk(Apply(s, t, PopCas(false)), other)
    ensures s.threads[t].next == NextOf(s, s.head.slot.value)
  {
    var s' := Apply(s, t, PopCas(false));
    forall x: Slot
      ensures x in other <==> x in free[1..]
    {
      SlotAccounts(s, t, free, other, x);
    }
    SuffixLinked(s, free, 1);
    assert Linked(s, other) by {
      assert forall x :: NextOf(s', x) == NextOf(s, x);
    }
    SameSlotsSameHead(s, free[1..], other);
    assert NextOf(s, free[0]) == HeadOf(free[1..]);
  }

  /**
   A compare-exchange that succeeds in a pop keeps every slot either listed or
   handed out once if and only if the successor it read is still the successor.
   */
  lemma {:induction false} PopIsSafeIff(s: State, t: Token)
    requires WellFormed(s) && Enabled(s, t, PopCas(false)) && s.head == s.threads[t].seen
    ensures WellFormed(Apply(s, t, PopCas(false))) <==> s.threads[t].next == NextOf(s, s.head.slot.value)
  {
    var free :| ListOk(s, free);
    var s' := Apply(s, t, PopCas(false));
    if s.threads[t].next == NextOf(s, s.head.slot.value) {
      PopCasKeepsList(s, t, free);
    } else if other :| ListOk(s', other) {
      SafePopReadCurrent(s, t, free, other);
    }
  }

  /** If the step is a pop that succeeds, the successor it read is still the successor. */
  predicate ReadsCurrent(s: State, t: Token, a: Action)
    requires Enabled(s, t, a)
  {
    a == PopCas(false) && s.head == s.threads[t].seen ==> s.threads[t].next == NextOf(s, s.threads[t].seen.slot.value)
  }

  lemma {:induction false} SafeStepKeeps(s: State, t: Token, a: Action, free: seq<Slot>)
    requires ListOk(s, free) && PushesOk(s) && Enabled(s, t, a) && ReadsCurrent(s, t, a)
    ensures ListOk(Apply(s, t, a), FreeAfter(s, t, a, free)) && PushesOk(Apply(s, t, a))
  {
    if a == PopCas(false) && s.head == s.threads[t].seen {
      PopCasKeepsList(s, t, free);
    } else if a == PushCas(false) && s.head == s.threads[t].seen {
      PushCasKeepsList(s, t, free);
    } else {
      OtherStepKeepsList(s, t, a, free);
    }
    StepKeepsPushes(s, t, a, free);
  }

  lemma {:induction false} SafeRunKeeps(states: seq<State>, steps: seq<(Token, Action)>, i: nat) returns (free: seq<Slot>)
    requires Run(states, steps) && Init(states[0]) && i <= |steps|
    requires forall j :: 0 <= j < i ==> ReadsCurrent(states[j], steps[j].0, steps[j].1)
    ensures ListOk(states[i], free) && PushesOk(states[i])
    decreases i
  {
    if i == 0 {
      free := [];
    } else {
      free := SafeRunKeeps(states, steps, i - 1);
      SafeStepKeeps(states[i - 1], steps[i - 1].0, steps[i - 1].1, free);
      free := FreeAfter(states[i - 1], steps[i - 1].0, steps[i - 1].1, free);
    }
  }

  /**
   Over any run, with any number of pops in flight: no slot is ever handed out
   twice or lost if and only if every pop that succeeds read a current successor.
   */
  lemma {:induction false} RunIsSafeIff(states: seq<State>, steps: seq<(Token, Action)>)
    requires Run(states, steps) && Init(states[0])
    ensures (forall i :: 0 <= i <= |steps| ==> WellFormed(states[i]))
      <==> (forall i :: 0 <= i < |steps| ==> ReadsCurrent(states[i], steps[i].0, steps[i].1))
  {
    if forall i :: 0 <= i < |steps| ==> ReadsCurrent(states[i], steps[i].0, steps[i].1) {
      forall i | 0 <= i <= |steps|
        ensures WellFormed(states[i])
      {
        var free := SafeRunKeeps(states, steps, i);
      }
    }
    if forall i :: 0 <= i <= |steps| ==> WellFormed(states[i]) {
      forall i | 0 <= i < |steps|
        ensures ReadsCurrent(states[i], steps[i].0, steps[i].1)
      {
        if steps[i].1 == PopCas(false) && states[i].head == states[i].threads[steps[i].0].seen {
          assert WellFormed(states[i]) && WellFormed(states[i + 1]);
          PopIsSafeIff(states[i], steps[i].0);
        }
      }
    }
  }

  // --- Two pops in flight --------------------------------------------------------------------

  function Exec(s: State, script: seq<(Token, Action)>): Option<State>
    decreases |script|
  {
    if script == [] then Some(s)
    else if Enabled(s, script[0].0, script[0].1) then Exec(Apply(s, script[0].0, script[0].1), script[1..])
    else None
  }

  ghost predicate Reaches(s: State, s': State) {
    exists script :: Exec(s, script) == Some(s')
  }

  lemma {:induction false} ExecAppends(s: State, a: seq<(Token, Action)>, b: seq<(Token, Action)>)
    requires Exec(s, a).Some?
    ensures Exec(s, a + b) == Exec(Exec(s, a).value, b)
    decreases |a|
  {
    if a == [] {
      assert a + b == b;
    } else {
      assert (a + b)[1..] == a[1..] + b;
      ExecAppends(Apply(s, a[0].0, a[0].1), a[1..], b);
    }
  }

  lemma {:induction false} ReachesTransitively(s: State, s': State, s'': State)
    requires Reaches(s, s') && Reaches(s', s'')
    ensures Reaches(s, s'')
  {
    var a :| Exec(s, a) == Some(s');
    var b :| Exec(s', b) == Some(s'');
    ExecAppends(s, a, b);
  }

  lemma {:induction false} StepReaches(s: State, t: Token, a: Action)
    requires Enabled(s, t, a)
    ensures Reaches(s, Apply(s, t, a))
  {
    assert [(t, a)][1..] == [];
    assert Exec(s, [(t, a)]) == Some(Apply(s, t, a));
  }

  /** A pop that nobody disturbs. */
  function Popped(s: State): State
    requires s.head.slot.Some?
  {
    s.(head := Word(0, NextOf(s, s.head.slot.value)), owned := s.owned + multiset{s.head.slot.value})
  }

  lemma {:induction false} PopReaches(s: State, t: Token)
    requires t in s.threads && s.threads[t] == Idle && s.head.slot.Some?
    ensures Reaches(s, Popped(s))
  {
    var s1 := Apply(s, t, PopLoad);
    StepReaches(s, t, PopLoad);
    var s2 := Apply(s1, t, PopNext);
    StepReaches(s1, t, PopNext);
    StepReaches(s2, t, PopCas(false));
    assert Apply(s2, t, PopCas(false)).threads == s.threads;
    ReachesTransitively(s, s1, s2);
    ReachesTransitively(s, s2, Popped(s));
  }

  /** A push of reclaimSlot, with a new generation, that nobody disturbs. */
  function Pushed(s: State, x: Slot): State {
    var generation := GenerationOf(s, x) + 1;
    s.(generations := s.generations[x := generation], next := s.next[x := s.head.slot],
       head := Word(generation, Some(x)), owned := s.owned - multiset{x})
  }

  lemma {:induction false} PushReaches(s: State, t: Token, x: Slot)
    requires t in s.threads && s.threads[t] == Idle && x in s.owned
    requires forall u :: u in s.threads ==> !Returns(s, u, x)
    ensures Reaches(s, Pushed(s, x))
  {
    var s1 := Apply(s, t, PushLoad(x, true));
    StepReaches(s, t, PushLoad(x, true));
    var s2 := Apply(s1, t, PushStore);
    StepReaches(s1, t, PushStore);
    StepReaches(s2, t, PushCas(false));
    assert Apply(s2, t, PushCas(false)).threads == s.threads;
    ReachesTransitively(s, s1, s2);
    ReachesTransitively(s, s2, Pushed(s, x));
  }

  lemma {:induction false} GrowReaches(s: State, t: Token)
    requires t in s.threads && s.threads[t] == Idle && s.head.slot.None?
    ensures Reaches(s, s.(count := s.count + 1, owned := s.owned + multiset{s.count}))
  {
    var s1 := Apply(s, t, PopLoad);
    StepReaches(s, t, PopLoad);
    StepReaches(s1, t, Grow);
    assert Apply(s1, t, Grow).threads == s.threads;
    ReachesTransitively(s, s1, Apply(s1, t, Grow));
  }

  lemma {:induction false} ThenStep(s0: State, s: State, t: Token, a: Action)
    requires Reaches(s0, s) && Enabled(s, t, a)
    ensures Reaches(s0, Apply(s, t, a))
  {
    StepReaches(s, t, a);
    ReachesTransitively(s0, s, Apply(s, t, a));
  }

  lemma {:induction false} ThenPop(s0: State, s: State, t: Token)
    requires Reaches(s0, s) && t in s.threads && s.threads[t] == Idle && s.head.slot.Some?
    ensures Reaches(s0, Popped(s))
  {
    PopReaches(s, t);
    ReachesTransitively(s0, s, Popped(s));
  }

  lemma {:induction false} ThenPush(s0: State, s: State, t: Token, x: Slot)
    requires Reaches(s0, s) && t in s.threads && s.threads[t] == Idle && x in s.owned
    requires forall u :: u in s.threads ==> !Returns(s, u, x)
    ensures Reaches(s0, Pushed(s, x))
  {
    PushReaches(s, t, x);
    ReachesTransitively(s0, s, Pushed(s, x));
  }

  const FRESH := State(0, map[], map[], Word(0, None), multiset{}, map[1 := Idle, 2 := Idle])

  lemma {:induction false} ThreeSlots() returns (s: State)
    ensures Reaches(FRESH, s) && s == FRESH.(count := 3, owned := multiset{0, 1, 2})
  {
    var s1 := FRESH.(count := 1, owned := multiset{0});
    assert FRESH.owned + multiset{0} == multiset{0};
    GrowReaches(FRESH, 2);
    var s2 := FRESH.(count := 2, owned := multiset{0, 1});
    assert s1.owned + multiset{1} == multiset{0, 1};
    GrowReaches(s1, 2);
    s := FRESH.(count := 3, owned := multiset{0, 1, 2});
    assert s2.owned + multiset{2} == multiset{0, 1, 2};
    GrowReaches(s2, 2);
    ReachesTransitively(FRESH, s1, s2);
    ReachesTransitively(FRESH, s2, s);
  }

  /** Slots 0 and 1 are listed under a head without generation, as a pop of slot 2 leaves it. */
  lemma {:induction false} HeadAfterPop() returns (s: State)
    ensures Reaches(FRESH, s) && s.threads == map[1 := Idle, 2 := Idle]
    ensures s.head == Word(0, Some(0)) && NextOf(s, 0) == Some(1) && NextOf(s, 1) == None && s.owned[2] == 1
  {
    var s0 := ThreeSlots();
    ThenPush(FRESH, s0, 2, 1);
    var s1 := Pushed(s0, 1);
    ThenPush(FRESH, s1, 2, 0);
    var s2 := Pushed(s1, 0);
    ThenPush(FRESH, s2, 2, 2);
    var s3 := Pushed(s2, 2);
    ThenPop(FRESH, s3, 2);
    s := Popped(s3);
  }

  /** Thread 2 takes both listed slots. */
  lemma {:induction false} BothTaken(s: State) returns (s': State)
    requires s.threads == map[1 := PopRead(Word(0, Some(0)), Some(1)), 2 := Idle]
    requires s.head == Word(0, Some(0)) && NextOf(s, 0) == Some(1) && NextOf(s, 1) == None && s.owned[2] == 1
    ensures Reaches(s, s') && s'.threads == s.threads && s'.next == s.next && s'.head.slot == None
    ensures s'.owned[0] > 0 && s'.owned[1] > 0 && s'.owned[2] > 0
  {
    PopReaches(s, 2);
    var s1 := Popped(s);
    ThenPop(s, s1, 2);
    s' := Popped(s1);
  }

  /** Thread 2 gives back slots 0 and 2 and takes slot 2: the head word is as before. */
  lemma {:induction false} HeadRepeats(s: State) returns (s': State)
    requires s.threads == map[1 := PopRead(Word(0, Some(0)), Some(1)), 2 := Idle]
    requires s.head == Word(0, Some(0)) && NextOf(s, 0) == Some(1) && NextOf(s, 1) == None && s.owned[2] == 1
    ensures Reaches(s, s') && s'.head == s.head && s'.threads == s.threads
    ensures NextOf(s', 1) == None && NextOf(s', 0) == None && s'.owned[1] > 0
  {
    var s2 := BothTaken(s);
    ThenPush(s, s2, 2, 0);
    var s3 := Pushed(s2, 0);
    ThenPush(s, s3, 2, 2);
    var s4 := Pushed(s3, 2);
    ThenPop(s, s4, 2);
    s' := Popped(s4);
  }

  /**
   The generation in the head does not exclude repetition, because a pop
   writes the successor with generation zero. With two pops in flight, from a
   fresh store and with a new generation in every push, one slot is handed out
   twice.
   */
  lemma {:induction false} HandedOutTwice() returns (s: State)
    ensures Init(FRESH) && Reaches(FRESH, s) && s.owned[1] >= 2 && !WellFormed(s)
  {
    var s0 := HeadAfterPop();
    var s1 := Apply(s0, 1, PopLoad);
    ThenStep(FRESH, s0, 1, PopLoad);
    var s2 := Apply(s1, 1, PopNext);
    ThenStep(FRESH, s1, 1, PopNext);
    assert s2.threads == map[1 := PopRead(Word(0, Some(0)), Some(1)), 2 := Idle];
    assert NextOf(s2, 1) == None;
    var s3 := HeadRepeats(s2);
    ReachesTransitively(FRESH, s2, s3);
    var s4 := Apply(s3, 1, PopCas(false));
    ThenStep(FRESH, s3, 1, PopCas(false));
    ThenPop(FRESH, s4, 2);
    s := Popped(s4);
  }
}
