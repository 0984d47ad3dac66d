/**
 Reclamation of retired listener views, as a step machine: any number of
 dispatching threads that take no lock, and one mutator at a time that holds
 the store's mutex. Addresses of freed views may be used again.
 */
module HazardReclamation {
  import opened Common

  type Token = nat
  type Addr = nat
  type Slot = nat

  // kDispatchHazardSlotCount
  const SLOT_COUNT: nat := 4096

  /** Where the dispatch that a thread runs at the moment stands. */
  datatype Pc =
      // outside every dispatch, or inside the innermost one: in a callback or between two
    | Idle
      // the hazard slot is taken, but not yet covered by the published count
    | Counting
    | Loaded(view: Addr)
      // the hazard cell holds `view`; view_ is about to be read again
    | Stored(view: Addr)
    | Withdrawing

  /**
   A dispatch that iterates `view`. `exposed` records whether the thread's
   hazard cell has ever held something else since the iteration began; no step
   reads it.
   */
  datatype Frame = Frame(view: Addr, exposed: bool)

  /** `frames` are the open dispatches of a thread, the innermost last; all share its one hazard cell. */
  datatype Thread = Thread(slot: Option<Slot>, frames: seq<Frame>, pc: Pc)

  /** What the holder of the mutex is doing; `todo` is not yet scanned, `doomed` is to be freed. */
  datatype Mutator =
    | Unlocked
    | LockedDispatch(view: Addr)
    | Built(built: Addr)
    | Retired(built: Addr)
    | Unpublished
    | Scanning(todo: set<Addr>, doomed: set<Addr>)
    | ScanningView(view: Addr, index: nat, count: nat, todo: set<Addr>, doomed: set<Addr>)

  datatype State = State(
    hazards: map<Slot, Addr>,
    nextSlot: nat,
    publishedSlots: nat,
    freeSlots: set<Slot>,
    published: Option<Addr>,
    owned: Option<Addr>,
    retired: set<Addr>,
    mutator: Mutator,
    threads: map<Token, Thread>)

  function Members<T>(o: Option<T>): set<T> {
    if o.Some? then {o.value} else {}
  }

  /** The views whose memory is allocated. */
  function Live(s: State): set<Addr> {
    s.retired + Members(s.owned) + (if s.mutator.Built? then {s.mutator.built} else {})
  }

  datatype Action =
    | TakeRecycled(slot: Slot)
    | TakeNew
    | PublishCount
    | LoadView
    | StoreHazard
    | Validate
    | Withdraw
    | Finish
    | ExitThread

  datatype MutatorAction =
    | StartLockedDispatch
    | EndLockedDispatch
    | BuildView(built: Addr)
    | RetireOld
    | PublishNew
    | UnpublishForClear
    | RetireForClear
    | PickView(view: Addr)
    | ScanSlot
    | Doom
    | Free(view: Addr)
    | Unlock

  /** The frames under a hazard cell that now holds `cell`. */
  function Shielded(frames: seq<Frame>, cell: Option<Addr>): (r: seq<Frame>)
    ensures |r| == |frames|
    ensures forall k :: 0 <= k < |r| ==>
              r[k].view == frames[k].view && (r[k].exposed <==> frames[k].exposed || cell != Some(frames[k].view))
  {
    seq(|frames|, k requires 0 <= k < |frames| =>
      Frame(frames[k].view, frames[k].exposed || cell != Some(frames[k].view)))
  }

  function Move(s: State, t: Token, th: Thread): State {
    s.(threads := s.threads[t := th])
  }

  predicate Enabled(s: State, t: Token, a: Action) {
    t in s.threads &&
    var th := s.threads[t];
    match a
    case TakeRecycled(x) => th == Thread(None, [], Idle) && x in s.freeSlots
    case TakeNew => th == Thread(None, [], Idle) && s.nextSlot < SLOT_COUNT
    case PublishCount => th.slot.Some? && th.pc.Counting?
    case LoadView => th.slot.Some? && th.pc.Idle?
    case StoreHazard => th.slot.Some? && th.pc.Loaded?
    case Validate => th.slot.Some? && th.pc.Stored?
    case Withdraw => th.slot.Some? && th.pc.Withdrawing?
    case Finish => th.slot.Some? && th.pc.Idle? && th.frames != []
    case ExitThread => th.slot.Some? && th.pc.Idle? && th.frames == []
  }

  function Apply(s: State, t: Token, a: Action): State
    requires Enabled(s, t, a)
  {
    var th := s.threads[t];
    match a
    case TakeRecycled(x) => Move(s.(freeSlots := s.freeSlots - {x}), t, Thread(Some(x), [], Idle))
    case TakeNew => Move(s.(nextSlot := s.nextSlot + 1), t, Thread(Some(s.nextSlot), [], Counting))
    case PublishCount =>
      var count := th.slot.value + 1;
      Move(s.(publishedSlots := if s.publishedSlots < count then count else s.publishedSlots), t, th.(pc := Idle))
    case LoadView => if s.published.None? then s else Move(s, t, th.(pc := Loaded(s.published.value)))
    case StoreHazard =>
      var v := th.pc.view;
      Move(s.(hazards := s.hazards[th.slot.value := v]), t,
        Thread(th.slot, Shielded(th.frames, Some(v)), Stored(v)))
    case Validate =>
      var v := th.pc.view;
      Move(s, t,
        if s.published == Some(v) then Thread(th.slot, th.frames + [Frame(v, false)], Idle)
        else if s.published.None? then th.(pc := Withdrawing)
        else th.(pc := Loaded(s.published.value)))
    case Withdraw =>
      Move(s.(hazards := s.hazards - {th.slot.value}), t, Thread(th.slot, Shielded(th.frames, None), Idle))
    case Finish =>
      var outer := th.frames[..|th.frames| - 1];
      Move(s.(hazards := s.hazards - {th.slot.value}), t, Thread(th.slot, Shielded(outer, None), Idle))
    case ExitThread => Move(s.(freeSlots := s.freeSlots + {th.slot.value}), t, Thread(None, [], Idle))
  }

  predicate MutatorEnabled(s: State, a: MutatorAction) {
    var m := s.mutator;
    match a
    case StartLockedDispatch => m.Unlocked? && s.owned.Some?
    case EndLockedDispatch => m.LockedDispatch?
    case BuildView(x) => m.Unlocked? && x !in Live(s)
    case RetireOld => m.Built?
    case PublishNew => m.Retired?
    case UnpublishForClear => m.Unlocked?
    case RetireForClear => m.Unpublished?
    case PickView(x) => m.Scanning? && x in m.todo
    case ScanSlot => m.ScanningView? && m.index < m.count
    case Doom => m.ScanningView? && m.index == m.count
    case Free(x) => (m.Scanning? || m.ScanningView?) && x in m.doomed
    case Unlock => m.Scanning? && m.todo == {} && m.doomed == {}
  }

  /** The reclaimer reads this many cells: the published ones that fit the table. */
  function ScannedSlots(s: State): nat {
    if s.publishedSlots < SLOT_COUNT then s.publishedSlots else SLOT_COUNT
  }

  function MutatorApply(s: State, a: MutatorAction): State
    requires MutatorEnabled(s, a)
  {
    var m := s.mutator;
    match a
    case StartLockedDispatch => s.(mutator := LockedDispatch(s.owned.value))
    case EndLockedDispatch => s.(mutator := Unlocked)
    case BuildView(x) => s.(mutator := Built(x))
    case RetireOld => s.(retired := s.retired + Members(s.owned), owned := Some(m.built), mutator := Retired(m.built))
    case PublishNew => s.(published := Some(m.built), mutator := Scanning(s.retired, {}))
    case UnpublishForClear => s.(published := None, mutator := Unpublished)
    case RetireForClear =>
      s.(retired := s.retired + Members(s.owned), owned := None, mutator := Scanning(s.retired + Members(s.owned), {}))
    case PickView(x) =>
      s.(mutator := ScanningView(x, 0, ScannedSlots(s), m.todo - {x}, m.doomed))
    case ScanSlot =>
      if m.index in s.hazards && s.hazards[m.index] == m.view
      then s.(mutator := Scanning(m.todo, m.doomed))
      else s.(mutator := m.(index := m.index + 1))
    case Doom => s.(mutator := Scanning(m.todo, m.doomed + {m.view}))
    case Free(x) => s.(retired := s.retired - {x}, mutator := m.(doomed := m.doomed - {x}))
    case Unlock => s.(mutator := Unlocked)
  }

  // --- Invariant -------------------------------------------------------------------

  predicate HasSlot(s: State, t: Token, x: Slot) {
    t in s.threads && s.threads[t].slot == Some(x)
  }

  predicate Dispatches(th: Thread) {
    th.frames != [] || th.pc.Loaded? || th.pc.Stored? || th.pc.Withdrawing?
  }

  /** Slots are exclusive, and every slot in use or recyclable lies below the published count. */
  ghost predicate SlotsOk(s: State) {
    && s.nextSlot <= SLOT_COUNT
    && (forall t: Token, u: Token, x: Slot :: HasSlot(s, t, x) && HasSlot(s, u, x) ==> t == u)
    && (forall t: Token, x: Slot :: HasSlot(s, t, x) ==> x < s.nextSlot && x !in s.freeSlots)
    && (forall t: Token, x: Slot :: HasSlot(s, t, x) && !s.threads[t].pc.Counting? ==> x < s.publishedSlots)
    && (forall x: Slot :: x in s.freeSlots ==> x < s.publishedSlots && x < s.nextSlot)
    && (forall t: Token :: t in s.threads && s.threads[t].slot.None? ==> s.threads[t] == Thread(None, [], Idle))
    && (forall t: Token :: t in s.threads && s.threads[t].pc.Counting? ==> s.threads[t].frames == [])
  }

  predicate IsOpen(s: State, t: Token, k: nat) {
    t in s.threads && k < |s.threads[t].frames|
  }

  function FrameOf(s: State, t: Token, k: nat): Frame
    requires IsOpen(s, t, k)
  {
    s.threads[t].frames[k]
  }

  /** Dispatch k of t is open and the thread's cell has named its view ever since it began. */
  predicate Protected(s: State, t: Token, k: nat) {
    IsOpen(s, t, k) && s.threads[t].slot.Some? && !FrameOf(s, t, k).exposed
  }

  /** What the hazard cell of a thread holds. */
  function CellOf(s: State, t: Token): Option<Addr>
    requires t in s.threads
  {
    var slot := s.threads[t].slot;
    if slot.Some? && slot.value in s.hazards then Some(s.hazards[slot.value]) else None
  }

  /** The cell of a protected dispatch names its view; without a dispatch the cell is empty. */
  ghost predicate HazardsOk(s: State) {
    && (forall t: Token :: t in s.threads && s.threads[t].pc.Stored? ==> CellOf(s, t) == Some(s.threads[t].pc.view))
    && (forall t: Token, k: nat :: Protected(s, t, k) ==> CellOf(s, t) == Some(FrameOf(s, t, k).view))
    && (forall x: Slot :: x in s.hazards ==> exists t: Token :: HasSlot(s, t, x) && Dispatches(s.threads[t]))
  }

  ghost predicate ViewsOk(s: State) {
    && (s.owned.Some? ==> s.owned.value !in s.retired)
    && match s.mutator
       case Unlocked => s.published == s.owned
       case LockedDispatch(v) => s.published == s.owned == Some(v)
       case Built(x) => s.published == s.owned && x !in s.retired && s.owned != Some(x)
       case Retired(x) => s.owned == Some(x) && (s.published.Some? ==> s.published.value in s.retired)
       case Unpublished => s.published == None
       case Scanning(todo, doomed) => s.published == s.owned && todo <= s.retired && doomed <= s.retired && todo !! doomed
       case ScanningView(v, i, n, todo, doomed) =>
         && s.published == s.owned && todo <= s.retired && doomed <= s.retired && todo !! doomed
         && v in s.retired && v !in todo && v !in doomed && i <= n
  }

  /** `v` is allocated, will not be freed by the scan under way, and that scan has not yet passed cell x. */
  predicate Safe(s: State, v: Addr, x: Slot) {
    && v in Live(s)
    && (s.mutator.Scanning? || s.mutator.ScanningView? ==> v !in s.mutator.doomed)
    && (s.mutator.ScanningView? && s.mutator.view == v ==> s.mutator.index <= x < s.mutator.count)
  }

  ghost predicate ReadersOk(s: State) {
    forall t: Token, k: nat :: Protected(s, t, k) ==> Safe(s, FrameOf(s, t, k).view, s.threads[t].slot.value)
  }

  ghost predicate Inv(s: State) {
    SlotsOk(s) && HazardsOk(s) && ViewsOk(s) && ReadersOk(s)
  }

  /** A store without listeners, in a process whose threads do not dispatch on it yet. */
  ghost predicate Init(s: State) {
    && s.hazards == map[] && s.published == s.owned == None && s.retired == {} && s.mutator == Unlocked
    && SlotsOk(s)
    && forall t: Token :: t in s.threads ==> s.threads[t].pc.Idle? && s.threads[t].frames == []
  }

  lemma InitOk(s: State)
    requires Init(s)
    ensures Inv(s)
  {
  }

  lemma {:induction false} StepKeepsSlots(s: State, t: Token, a: Action)
    requires SlotsOk(s) && Enabled(s, t, a)
    ensures SlotsOk(Apply(s, t, a))
  {
    var s' := Apply(s, t, a);
    assert s.threads[t].slot.Some? ==> HasSlot(s, t, s.threads[t].slot.value);
    forall u: Token, x: Slot | HasSlot(s', u, x) && u != t
      ensures HasSlot(s, u, x)
    {
    }
  }

  /** A step of t leaves the cells, frames and counters of the other threads as they were. */
  lemma {:induction false} OthersUnchanged(s: State, t: Token, a: Action, u: Token)
    requires SlotsOk(s) && Enabled(s, t, a) && u in s.threads && u != t
    ensures var s' := Apply(s, t, a); s'.threads[u] == s.threads[u] && CellOf(s', u) == CellOf(s, u)
  {
    if s.threads[t].slot.Some? && s.threads[t].slot == s.threads[u].slot {
      assert HasSlot(s, t, s.threads[t].slot.value) && HasSlot(s, u, s.threads[t].slot.value);
    }
    assert s.threads[u].slot.Some? ==> HasSlot(s, u, s.threads[u].slot.value);
  }

  lemma {:induction false} StepKeepsCells(s: State, t: Token, a: Action)
    requires SlotsOk(s) && HazardsOk(s) && Enabled(s, t, a)
    ensures var s' := Apply(s, t, a);
      && (forall u: Token :: u in s'.threads && s'.threads[u].pc.Stored? ==> CellOf(s', u) == Some(s'.threads[u].pc.view))
      && (forall u: Token, k: nat :: Protected(s', u, k) ==> CellOf(s', u) == Some(FrameOf(s', u, k).view))
  {
    var s' := Apply(s, t, a);
    forall u: Token | u in s'.threads && s'.threads[u].pc.Stored?
      ensures CellOf(s', u) == Some(s'.threads[u].pc.view)
    {
      if u != t { OthersUnchanged(s, t, a, u); }
    }
    forall u: Token, k: nat | Protected(s', u, k)
      ensures CellOf(s', u) == Some(FrameOf(s', u, k).view)
    {
      if u != t {
        OthersUnchanged(s, t, a, u);
        assert Protected(s, u, k);
      } else if k < |s.threads[t].frames| {
        assert Protected(s, t, k);
      }
    }
  }

  lemma {:induction false} StepKeepsHazards(s: State, t: Token, a: Action)
    requires SlotsOk(s) && HazardsOk(s) && Enabled(s, t, a)
    ensures HazardsOk(Apply(s, t, a))
  {
    var s' := Apply(s, t, a);
    StepKeepsCells(s, t, a);
    forall x: Slot | x in s'.hazards
      ensures exists u: Token :: HasSlot(s', u, x) && Dispatches(s'.threads[u])
    {
      if x in s.hazards {
        var u: Token :| HasSlot(s, u, x) && Dispatches(s.threads[u]);
        assert HasSlot(s', u, x);
      } else {
        assert HasSlot(s', t, x);
      }
    }
  }

  lemma {:induction false} StepKeepsReaders(s: State, t: Token, a: Action)
    requires Inv(s) && Enabled(s, t, a)
    ensures ViewsOk(Apply(s, t, a)) && ReadersOk(Apply(s, t, a))
  {
    var s' := Apply(s, t, a);
    assert s.threads[t].slot.Some? ==> HasSlot(s, t, s.threads[t].slot.value);
    forall u: Token, k: nat | Protected(s', u, k)
      ensures Safe(s', FrameOf(s', u, k).view, s'.threads[u].slot.value)
    {
      if IsOpen(s, u, k) {
        assert Protected(s, u, k);
      }
    }
  }

  lemma {:induction false} MutatorKeepsReaders(s: State, a: MutatorAction)
    requires Inv(s) && MutatorEnabled(s, a)
    ensures ReadersOk(MutatorApply(s, a))
  {
    var s' := MutatorApply(s, a);
    forall t: Token, k: nat | Protected(s', t, k)
      ensures Safe(s', FrameOf(s', t, k).view, s'.threads[t].slot.value)
    {
      var x := s.threads[t].slot.value;
      assert Protected(s, t, k) && HasSlot(s, t, x);
      HeldStaysSafe(s, a, FrameOf(s, t, k).view, x);
    }
  }

  lemma {:induction false} HeldStaysSafe(s: State, a: MutatorAction, v: Addr, x: Slot)
    requires ViewsOk(s) && MutatorEnabled(s, a)
    requires Safe(s, v, x) && x < ScannedSlots(s) && x in s.hazards && s.hazards[x] == v
    ensures Safe(MutatorApply(s, a), v, x)
  {
  }

  lemma {:induction false} MutatorKeepsViews(s: State, a: MutatorAction)
    requires ViewsOk(s) && MutatorEnabled(s, a)
    ensures ViewsOk(MutatorApply(s, a))
  {
  }

  lemma {:induction false} StepKeeps(s: State, t: Token, a: Action)
    requires Inv(s) && Enabled(s, t, a)
    ensures Inv(Apply(s, t, a))
  {
    StepKeepsSlots(s, t, a);
    StepKeepsHazards(s, t, a);
    StepKeepsReaders(s, t, a);
  }

  lemma {:induction false} MutatorKeepsSlots(s: State, s': State)
    requires SlotsOk(s) && HazardsOk(s)
    requires s' == s.(published := s'.published, owned := s'.owned, retired := s'.retired, mutator := s'.mutator)
    ensures SlotsOk(s') && HazardsOk(s')
  {
    forall t: Token, x: Slot
      ensures HasSlot(s', t, x) <==> HasSlot(s, t, x)
    {
    }
    forall t: Token, k: nat
      ensures Protected(s', t, k) <==> Protected(s, t, k)
    {
    }
  }

  lemma {:induction false} MutatorKeeps(s: State, a: MutatorAction)
    requires Inv(s) && MutatorEnabled(s, a)
    ensures Inv(MutatorApply(s, a))
  {
    MutatorKeepsSlots(s, MutatorApply(s, a));
    MutatorKeepsViews(s, a);
    MutatorKeepsReaders(s, a);
  }

  datatype Step = ThreadStep(token: Token, action: Action) | MutatorStep(mutation: MutatorAction)

  ghost predicate Next(s: State, step: Step, s': State) {
    match step
    case ThreadStep(t, a) => Enabled(s, t, a) && s' == Apply(s, t, a)
    case MutatorStep(a) => MutatorEnabled(s, a) && s' == MutatorApply(s, a)
  }

  ghost predicate Run(states: seq<State>, steps: seq<Step>) {
    |states| == |steps| + 1 && forall i :: 0 <= i < |steps| ==> Next(states[i], steps[i], states[i + 1])
  }

  lemma {:induction false} RunKeeps(states: seq<State>, steps: seq<Step>, i: nat)
    requires Run(states, steps) && Init(states[0]) && i <= |steps|
    ensures Inv(states[i])
    decreases i
  {
    if i == 0 {
      InitOk(states[0]);
    } else {
      RunKeeps(states, steps, i - 1);
      assert Next(states[i - 1], steps[i - 1], states[i]);
      match steps[i - 1]
      case ThreadStep(t, a) => StepKeeps(states[i - 1], t, a);
      case MutatorStep(a) => MutatorKeeps(states[i - 1], a);
    }
  }

  // --- Safety over runs --------------------------------------------------------------

  /**
   At every moment of every run, the view of every dispatch whose thread's cell
   has named it throughout is allocated, and so is the view iterated under the
   mutex; and the hazard slot of every dispatching thread is one the reclaimer
   scans.
   */
  lemma {:induction false} ProtectedViewsAreAllocated(states: seq<State>, steps: seq<Step>, i: nat)
    requires Run(states, steps) && Init(states[0]) && i <= |steps|
    ensures var s := states[i];
      && (forall t: Token, k: nat :: IsOpen(s, t, k) && !FrameOf(s, t, k).exposed ==> FrameOf(s, t, k).view in Live(s))
      && (s.mutator.LockedDispatch? ==> s.mutator.view in Live(s))
      && (forall t: Token :: t in s.threads && Dispatches(s.threads[t]) ==>
            s.threads[t].slot.Some? && s.threads[t].slot.value < ScannedSlots(s))
  {
    var s := states[i];
    RunKeeps(states, steps, i);
    forall t: Token, k: nat | IsOpen(s, t, k) && !FrameOf(s, t, k).exposed
      ensures FrameOf(s, t, k).view in Live(s)
    {
      assert Protected(s, t, k);
    }
    forall t: Token | t in s.threads && s.threads[t].slot.Some?
      ensures HasSlot(s, t, s.threads[t].slot.value)
    {
    }
  }

  /**
   A step of a dispatch of t nested in dispatch k, after which the thread's
   cell no longer names the view of dispatch k.
   */
  predicate Uncovers(s: State, step: Step, s': State, t: Token, k: nat) {
    && step.ThreadStep? && step.token == t && (step.action.StoreHazard? || step.action.Withdraw? || step.action.Finish?)
    && IsOpen(s, t, k) && IsOpen(s', t, k) && CellOf(s', t) != Some(FrameOf(s', t, k).view)
  }

  /** Dispatch k of t on `v` has been open from moment j to moment i. */
  predicate OpenSince(states: seq<State>, j: nat, i: nat, t: Token, k: nat, v: Addr)
    requires j <= i < |states|
  {
    forall m :: j <= m <= i ==> IsOpen(states[m], t, k) && FrameOf(states[m], t, k).view == v
  }

  predicate CauseAt(states: seq<State>, steps: seq<Step>, j: nat, i: nat, t: Token, k: nat, v: Addr)
    requires |states| == |steps| + 1 && i <= |steps|
  {
    j < i && Uncovers(states[j], steps[j], states[j + 1], t, k) && OpenSince(states, j, i, t, k, v)
  }

  lemma {:induction false} StepExposes(s: State, step: Step, s': State, t: Token, k: nat)
    requires Inv(s) && Next(s, step, s') && IsOpen(s', t, k) && FrameOf(s', t, k).exposed
    ensures IsOpen(s, t, k) && FrameOf(s, t, k).view == FrameOf(s', t, k).view
    ensures FrameOf(s, t, k).exposed || Uncovers(s, step, s', t, k)
  {
    if step.ThreadStep? {
      if step.token == t {
        OwnStepExposes(s, t, step.action, k);
      } else {
        OthersUnchanged(s, step.token, step.action, t);
      }
    }
  }

  lemma {:induction false} OwnStepExposes(s: State, t: Token, a: Action, k: nat)
    requires HazardsOk(s) && SlotsOk(s) && Enabled(s, t, a)
    requires IsOpen(Apply(s, t, a), t, k) && FrameOf(Apply(s, t, a), t, k).exposed
    ensures IsOpen(s, t, k) && FrameOf(s, t, k).view == FrameOf(Apply(s, t, a), t, k).view
    ensures FrameOf(s, t, k).exposed || Uncovers(s, ThreadStep(t, a), Apply(s, t, a), t, k)
  {
    if IsOpen(s, t, k) && !FrameOf(s, t, k).exposed {
      assert Protected(s, t, k);
    }
  }

  lemma {:induction false} StepKeepsExposure(s: State, step: Step, s': State, t: Token, k: nat)
    requires SlotsOk(s) && Next(s, step, s') && IsOpen(s, t, k) && IsOpen(s', t, k)
    requires FrameOf(s, t, k).exposed || Uncovers(s, step, s', t, k)
    ensures FrameOf(s', t, k).exposed
  {
    if step.ThreadStep? && step.token != t {
      OthersUnchanged(s, step.token, step.action, t);
    }
  }

  lemma {:induction false} ExposureHasCause(states: seq<State>, steps: seq<Step>, i: nat, t: Token, k: nat) returns (j: nat)
    requires Run(states, steps) && Init(states[0]) && i <= |steps|
    requires IsOpen(states[i], t, k) && FrameOf(states[i], t, k).exposed
    ensures CauseAt(states, steps, j, i, t, k, FrameOf(states[i], t, k).view)
    decreases i
  {
    if i == 0 {
      assert false;
    } else {
      RunKeeps(states, steps, i - 1);
      assert Next(states[i - 1], steps[i - 1], states[i]);
      StepExposes(states[i - 1], steps[i - 1], states[i], t, k);
      if FrameOf(states[i - 1], t, k).exposed {
        j := ExposureHasCause(states, steps, i - 1, t, k);
      } else {
        j := i - 1;
      }
    }
  }

  lemma {:induction false} OpenBefore(states: seq<State>, j: nat, i: nat, t: Token, k: nat, v: Addr)
    requires j < i < |states| && OpenSince(states, j, i, t, k, v)
    ensures IsOpen(states[i - 1], t, k) && OpenSince(states, j, i - 1, t, k, v)
  {
  }

  lemma {:induction false} CauseExposes(states: seq<State>, steps: seq<Step>, j: nat, i: nat, t: Token, k: nat, v: Addr)
    requires Run(states, steps) && Init(states[0]) && i <= |steps| && IsOpen(states[i], t, k)
    requires CauseAt(states, steps, j, i, t, k, v)
    ensures FrameOf(states[i], t, k).exposed
    decreases i
  {
    var s, s' := states[i - 1], states[i];
    RunKeeps(states, steps, i - 1);
    assert Next(s, steps[i - 1], s');
    OpenBefore(states, j, i, t, k, v);
    if j < i - 1 {
      CauseExposes(states, steps, j, i - 1, t, k, v);
    }
    StepKeepsExposure(s, steps[i - 1], s', t, k);
  }

  /** An open dispatch is exposed exactly when, since it began, a dispatch nested in it took the cell away. */
  lemma {:induction false} ExposedIff(states: seq<State>, steps: seq<Step>, i: nat, t: Token, k: nat)
    requires Run(states, steps) && Init(states[0]) && i <= |steps| && IsOpen(states[i], t, k)
    ensures var f := FrameOf(states[i], t, k);
      f.exposed <==> exists j: nat :: CauseAt(states, steps, j, i, t, k, f.view)
  {
    var f := FrameOf(states[i], t, k);
    if f.exposed {
      var j := ExposureHasCause(states, steps, i, t, k);
    }
    forall j: nat | CauseAt(states, steps, j, i, t, k, f.view)
      ensures f.exposed
    {
      CauseExposes(states, steps, j, i, t, k, f.view);
    }
  }

  /**
   A step of a run frees a view under an open dispatch only if, since that
   dispatch began, one nested in it has stored another view in their common
   cell or has emptied it.
   */
  lemma {:induction false} FreeUnderDispatchHasCause(states: seq<State>, steps: seq<Step>, i: nat, t: Token, k: nat)
    returns (j: nat)
    requires Run(states, steps) && Init(states[0]) && i < |steps| && IsOpen(states[i], t, k)
    requires steps[i] == MutatorStep(Free(FrameOf(states[i], t, k).view))
    ensures CauseAt(states, steps, j, i, t, k, FrameOf(states[i], t, k).view)
  {
    RunKeeps(states, steps, i);
    assert Next(states[i], steps[i], states[i + 1]);
    assert !Protected(states[i], t, k);
    assert SlotsOk(states[i]);
    j := ExposureHasCause(states, steps, i, t, k);
  }

  /** No dispatch begins inside another one of its thread. */
  predicate OneDispatchPerThread(states: seq<State>, steps: seq<Step>)
    requires |states| == |steps| + 1
  {
    forall i :: 0 <= i < |steps| && steps[i].ThreadStep? && steps[i].action.LoadView? &&
                steps[i].token in states[i].threads ==>
      states[i].threads[steps[i].token].frames == []
  }

  predicate AloneInThread(th: Thread) {
    && (th.frames == [] || (th.pc.Idle? && |th.frames| == 1))
    && forall k :: 0 <= k < |th.frames| ==> !th.frames[k].exposed
  }

  lemma {:induction false} FlatRunExposesNothing(states: seq<State>, steps: seq<Step>, i: nat, t: Token)
    requires Run(states, steps) && Init(states[0]) && OneDispatchPerThread(states, steps)
    requires i <= |steps| && t in states[i].threads
    ensures AloneInThread(states[i].threads[t])
    decreases i
  {
    if i > 0 {
      RunKeeps(states, steps, i - 1);
      var s, step := states[i - 1], steps[i - 1];
      assert Next(s, step, states[i]);
      FlatRunExposesNothing(states, steps, i - 1, t);
      if step.ThreadStep? && step.token != t {
        OthersUnchanged(s, step.token, step.action, t);
      }
    }
  }

  /** While no dispatch begins inside another one of its thread, every view under iteration is allocated. */
  lemma {:induction false} IteratedViewsAreAllocated(states: seq<State>, steps: seq<Step>, i: nat, t: Token, k: nat)
    requires Run(states, steps) && Init(states[0]) && OneDispatchPerThread(states, steps)
    requires i <= |steps| && IsOpen(states[i], t, k)
    ensures FrameOf(states[i], t, k).view in Live(states[i])
  {
    FlatRunExposesNothing(states, steps, i, t);
    ProtectedViewsAreAllocated(states, steps, i);
  }

  /** ... and a step that frees a view frees one that no thread iterates. */
  lemma {:induction false} FreedViewIsNotIterated(states: seq<State>, steps: seq<Step>, i: nat, v: Addr, t: Token, k: nat)
    requires Run(states, steps) && Init(states[0]) && OneDispatchPerThread(states, steps)
    requires i < |steps| && steps[i] == MutatorStep(Free(v)) && IsOpen(states[i], t, k)
    ensures FrameOf(states[i], t, k).view != v
  {
    FlatRunExposesNothing(states, steps, i, t);
    RunKeeps(states, steps, i);
    assert Next(states[i], steps[i], states[i + 1]);
    assert SlotsOk(states[i]);
    assert Protected(states[i], t, k);
  }

  // --- What the mutator can free -------------------------------------------------------

  function Exec(s: State, script: seq<Step>): Option<State>
    decreases |script|
  {
    if script == [] then Some(s)
    else
      match script[0]
      case ThreadStep(t, a) => if Enabled(s, t, a) then Exec(Apply(s, t, a), script[1..]) else None
      case MutatorStep(a) => if MutatorEnabled(s, a) then Exec(MutatorApply(s, a), script[1..]) else None
  }

  predicate OfMutator(script: seq<Step>) {
    forall i :: 0 <= i < |script| ==> script[i].MutatorStep?
  }

  ghost predicate Reaches(s: State, s': State) {
    exists script :: Exec(s, script) == Some(s')
  }

  /** The holders of the mutex lead from s to s' while no dispatching thread moves. */
  ghost predicate MutatorReaches(s: State, s': State) {
    exists script :: OfMutator(script) && Exec(s, script) == Some(s')
  }

  lemma {:induction false} ExecAppends(s: State, a: seq<Step>, b: seq<Step>)
    requires Exec(s, a).Some?
    ensures Exec(s, a + b) == Exec(Exec(s, a).value, b)
    decreases |a|
  {
    if a == [] {
      assert a + b == b;
    } else {
      assert (a + b)[1..] == a[1..] + b;
      match a[0]
      case ThreadStep(t, x) => ExecAppends(Apply(s, t, x), a[1..], b);
      case MutatorStep(x) => ExecAppends(MutatorApply(s, x), a[1..], b);
    }
  }

  lemma {:induction false} ReachesTransitively(s: State, s': State, s'': State)
    requires Reaches(s, s') && Reaches(s', s'')
    ensures Reaches(s, s'')
  {
    var a :| Exec(s, a) == Some(s');
    var b :| Exec(s', b) == Some(s'');
    ExecAppends(s, a, b);
  }

  lemma {:induction false} MutatorTransitively(s: State, s': State, s'': State)
    requires MutatorReaches(s, s') && MutatorReaches(s', s'')
    ensures MutatorReaches(s, s'')
  {
    var a :| OfMutator(a) && Exec(s, a) == Some(s');
    var b :| OfMutator(b) && Exec(s', b) == Some(s'');
    ExecAppends(s, a, b);
    assert OfMutator(a + b);
  }

  lemma {:induction false} ThreadReaches(s: State, t: Token, a: Action)
    requires Enabled(s, t, a)
    ensures Reaches(s, Apply(s, t, a))
  {
    var script := [ThreadStep(t, a)];
    assert script[1..] == [];
    assert Exec(s, script) == Some(Apply(s, t, a));
  }

  lemma {:induction false} MutatorStepReaches(s: State, a: MutatorAction)
    requires MutatorEnabled(s, a)
    ensures MutatorReaches(s, MutatorApply(s, a))
  {
    var script := [MutatorStep(a)];
    assert script[1..] == [];
    assert OfMutator(script) && Exec(s, script) == Some(MutatorApply(s, a));
  }

  lemma {:induction false} MutatorStay(s: State)
    ensures MutatorReaches(s, s)
  {
    assert OfMutator([]) && Exec(s, []) == Some(s);
  }

  /** Some cell the reclaimer reads names v. */
  predicate Held(s: State, v: Addr) {
    exists x: Slot :: x < ScannedSlots(s) && x in s.hazards && s.hazards[x] == v
  }

  lemma {:induction false} ScanToEnd(s: State)
    requires s.mutator.ScanningView? && s.mutator.index <= s.mutator.count == ScannedSlots(s)
    requires !Held(s, s.mutator.view)
    ensures MutatorReaches(s, s.(mutator := s.mutator.(index := s.mutator.count)))
    decreases s.mutator.count - s.mutator.index
  {
    var m := s.mutator;
    if m.index == m.count {
      MutatorStay(s);
      assert s == s.(mutator := m.(index := m.count));
    } else {
      var s1 := s.(mutator := m.(index := m.index + 1));
      MutatorStepReaches(s, ScanSlot);
      assert MutatorApply(s, ScanSlot) == s1;
      assert s1.hazards == s.hazards && ScannedSlots(s1) == ScannedSlots(s);
      assert !Held(s1, m.view);
      ScanToEnd(s1);
      MutatorTransitively(s, s1, s1.(mutator := s1.mutator.(index := m.count)));
    }
  }

  /** The scan of one retired view that no scanned cell names ends with its memory freed. */
  lemma {:induction false} ScanFrees(s: State, v: Addr)
    requires s.mutator.Scanning? && v in s.mutator.todo && v !in s.mutator.doomed && !Held(s, v)
    ensures MutatorReaches(s, s.(retired := s.retired - {v}, mutator := Scanning(s.mutator.todo - {v}, s.mutator.doomed)))
  {
    var m := s.mutator;
    var s1 := MutatorApply(s, PickView(v));
    MutatorStepReaches(s, PickView(v));
    assert Held(s1, v) ==> Held(s, v);
    var s2 := s1.(mutator := s1.mutator.(index := s1.mutator.count));
    ScanToEnd(s1);
    MutatorTransitively(s, s1, s2);
    var s3 := MutatorApply(s2, Doom);
    MutatorStepReaches(s2, Doom);
    MutatorTransitively(s, s2, s3);
    var s4 := MutatorApply(s3, Free(v));
    MutatorStepReaches(s3, Free(v));
    MutatorTransitively(s, s3, s4);
    assert (m.doomed + {v}) - {v} == m.doomed;
  }

  /** Cell x, below which no cell names the view under scan, does. */
  lemma {:induction false} ScanToHolder(s: State, x: Slot)
    requires s.mutator.ScanningView? && s.mutator.index <= x < s.mutator.count
    requires x in s.hazards && s.hazards[x] == s.mutator.view
    ensures MutatorReaches(s, s.(mutator := Scanning(s.mutator.todo, s.mutator.doomed)))
    decreases x - s.mutator.index
  {
    var m := s.mutator;
    var s1 := MutatorApply(s, ScanSlot);
    MutatorStepReaches(s, ScanSlot);
    if s1.mutator.ScanningView? {
      ScanToHolder(s1, x);
      MutatorTransitively(s, s1, s.(mutator := Scanning(m.todo, m.doomed)));
    }
  }

  /** The scan of one retired view that some scanned cell names leaves it retired. */
  lemma {:induction false} ScanSpares(s: State, v: Addr)
    requires s.mutator.Scanning? && v in s.mutator.todo && Held(s, v)
    ensures MutatorReaches(s, s.(mutator := Scanning(s.mutator.todo - {v}, s.mutator.doomed)))
  {
    var x: Slot :| x < ScannedSlots(s) && x in s.hazards && s.hazards[x] == v;
    var s1 := MutatorApply(s, PickView(v));
    MutatorStepReaches(s, PickView(v));
    ScanToHolder(s1, x);
    MutatorTransitively(s, s1, s.(mutator := Scanning(s.mutator.todo - {v}, s.mutator.doomed)));
  }

  function Unheld(s: State, views: set<Addr>): set<Addr> {
    set v | v in views && !Held(s, v)
  }

  lemma {:induction false} ScanCompletes(s: State)
    requires s.mutator.Scanning? && s.mutator.doomed == {}
    ensures MutatorReaches(s, s.(retired := s.retired - Unheld(s, s.mutator.todo), mutator := Unlocked))
    decreases |s.mutator.todo|
  {
    var todo := s.mutator.todo;
    var end := s.(retired := s.retired - Unheld(s, todo), mutator := Unlocked);
    if todo == {} {
      MutatorStepReaches(s, Unlock);
      assert MutatorApply(s, Unlock) == end;
    } else {
      var v :| v in todo;
      var freed := if Held(s, v) then {} else {v};
      var s1 := s.(retired := s.retired - freed, mutator := Scanning(todo - {v}, {}));
      if Held(s, v) {
        ScanSpares(s, v);
        assert s.retired - freed == s.retired;
      } else {
        ScanFrees(s, v);
      }
      assert MutatorReaches(s, s1);
      ScanCompletes(s1);
      forall w: Addr
        ensures Held(s1, w) <==> Held(s, w)
      {
        assert ScannedSlots(s1) == ScannedSlots(s) && s1.hazards == s.hazards;
      }
      assert s.retired - Unheld(s, todo) == s1.retired - Unheld(s1, todo - {v});
      MutatorTransitively(s, s1, end);
    }
  }

  /** The retired views that some scanned cell names. */
  function StillHeld(s: State): set<Addr> {
    set v | v in s.retired && Held(s, v)
  }

  /**
   A reclamation that starts with all retired views to scan ends with exactly
   those left that some scanned cell names.
   */
  lemma {:induction false} ReclaimKeepsTheHeld(s: State)
    requires s.mutator == Scanning(s.retired, {})
    ensures MutatorReaches(s, s.(retired := StillHeld(s), mutator := Unlocked))
  {
    ScanCompletes(s);
    assert s.retired - Unheld(s, s.retired) == StillHeld(s);
  }

  /** Once no thread dispatches, every cell is empty and the next reclamation frees every retired view. */
  lemma {:induction false} QuietReclaimFreesAll(s: State)
    requires Inv(s) && s.mutator == Scanning(s.retired, {})
    requires forall t: Token :: t in s.threads ==> !Dispatches(s.threads[t])
    ensures MutatorReaches(s, s.(retired := {}, mutator := Unlocked))
  {
    assert forall x: Slot :: x !in s.hazards;
    ReclaimKeepsTheHeld(s);
    assert StillHeld(s) == {};
  }

  lemma {:induction false} FreshAddress(used: set<Addr>) returns (x: Addr)
    ensures forall y :: y in used ==> y < x
    decreases |used|
  {
    if used == {} {
      x := 0;
    } else {
      var y :| y in used;
      var below := FreshAddress(used - {y});
      x := if y < below then below else y + 1;
      assert forall z :: z in used ==> z == y || z in used - {y};
    }
  }

  /** A listener is added or removed: the view is replaced, and all replaced views are to be scanned. */
  lemma {:induction false} ReplaceReaches(s: State, x: Addr)
    requires s.mutator.Unlocked? && x !in Live(s)
    ensures MutatorReaches(s, Replaced(s, x))
  {
    var s1 := MutatorApply(s, BuildView(x));
    MutatorStepReaches(s, BuildView(x));
    var s2 := MutatorApply(s1, RetireOld);
    MutatorStepReaches(s1, RetireOld);
    MutatorTransitively(s, s1, s2);
    MutatorStepReaches(s2, PublishNew);
    MutatorTransitively(s, s2, MutatorApply(s2, PublishNew));
  }

  function Replaced(s: State, x: Addr): State {
    var retired := s.retired + Members(s.owned);
    s.(retired := retired, owned := Some(x), published := Some(x), mutator := Scanning(retired, {}))
  }

  ghost predicate CanBeFreed(s: State, v: Addr) {
    exists s' :: MutatorReaches(s, s') && v !in Live(s')
  }

  lemma {:induction false} UnheldCanBeFreed(s: State, v: Addr)
    requires s.mutator.Unlocked? && v in Live(s) && !Held(s, v)
    ensures exists s' :: MutatorReaches(s, s') && v !in Live(s') && s'.threads == s.threads
  {
    var x := FreshAddress(Live(s));
    assert x !in Live(s);
    var s1 := Replaced(s, x);
    ReplaceReaches(s, x);
    var s2 := s1.(retired := StillHeld(s1), mutator := Unlocked);
    ReclaimKeepsTheHeld(s1);
    MutatorTransitively(s, s1, s2);
    assert Held(s1, v) ==> Held(s, v);
  }

  lemma {:induction false} HeldIsKept(s: State, script: seq<Step>, v: Addr, x: Slot)
    requires ViewsOk(s) && OfMutator(script) && Exec(s, script).Some?
    requires Safe(s, v, x) && x < ScannedSlots(s) && x in s.hazards && s.hazards[x] == v
    ensures v in Live(Exec(s, script).value)
    decreases |script|
  {
    if script != [] {
      var a := script[0].mutation;
      HeldStaysSafe(s, a, v, x);
      MutatorKeepsViews(s, a);
      HeldIsKept(MutatorApply(s, a), script[1..], v, x);
    }
  }

  /**
   While no dispatching thread moves, the holders of the mutex can free an
   allocated view if and only if no cell that the reclaimer reads names it,
   whoever still iterates it.
   */
  lemma {:induction false} CanBeFreedIff(s: State, v: Addr)
    requires Inv(s) && s.mutator.Unlocked? && v in Live(s)
    ensures CanBeFreed(s, v) <==> !Held(s, v)
  {
    if !Held(s, v) {
      UnheldCanBeFreed(s, v);
    } else {
      var x: Slot :| x < ScannedSlots(s) && x in s.hazards && s.hazards[x] == v;
      forall s' | MutatorReaches(s, s')
        ensures v in Live(s')
      {
        var script :| OfMutator(script) && Exec(s, script) == Some(s');
        HeldIsKept(s, script, v, x);
      }
    }
  }

  // --- A dispatch inside a dispatch ---------------------------------------------------

  /**
   The end of a dispatch empties the cell for the ones it is nested in: if no
   other thread's cell names the view of such a dispatch, that view can be
   freed while the dispatch is still open.
   */
  lemma {:induction false} FinishedDispatchLosesOuterView(s: State, t: Token, k: nat)
    requires Inv(s) && s.mutator.Unlocked? && Enabled(s, t, Finish) && k < |s.threads[t].frames| - 1
    requires s.threads[t].frames[k].view in Live(s)
    requires forall u: Token :: u in s.threads && u != t ==> CellOf(s, u) != Some(s.threads[t].frames[k].view)
    ensures var s1 := Apply(s, t, Finish);
      CellOf(s1, t) == None && IsOpen(s1, t, k) && CanBeFreed(s1, FrameOf(s1, t, k).view)
  {
    var s1, v := Apply(s, t, Finish), s.threads[t].frames[k].view;
    StepKeeps(s, t, Finish);
    forall x: Slot | x in s1.hazards
      ensures s1.hazards[x] != v
    {
      var u: Token :| HasSlot(s1, u, x) && Dispatches(s1.threads[u]);
      assert u != t;
      OthersUnchanged(s, t, Finish, u);
      assert CellOf(s1, u) == Some(s1.hazards[x]);
    }
    CanBeFreedIff(s1, v);
  }

  /** Dispatch k of t iterates a view whose memory has been freed. */
  predicate IteratesFreed(s: State, t: Token, k: nat) {
    IsOpen(s, t, k) && FrameOf(s, t, k).view !in Live(s)
  }

  const START := State(map[], 0, 0, {}, None, None, {}, Unlocked, map[1 := Thread(None, [], Idle)])

  /** Thread 1 stands in a callback of a dispatch of view 7, with cell 0. */
  const IN_CALLBACK :=
    State(map[0 := 7], 1, 1, {}, Some(7), Some(7), {}, Unlocked, map[1 := Thread(Some(0), [Frame(7, false)], Idle)])

  lemma {:induction false} MutatorIsStep(s: State, s': State)
    requires MutatorReaches(s, s')
    ensures Reaches(s, s')
  {
  }

  lemma {:induction false} StartIsInit()
    ensures Init(START)
  {
    forall t: Token, x: Slot
      ensures !HasSlot(START, t, x)
    {
    }
  }

  /** The first listener has been added; thread 1 has not dispatched yet. */
  const ONE_VIEW := START.(published := Some(7), owned := Some(7))

  /** Thread 1 has a slot. */
  const ONE_SLOT := ONE_VIEW.(nextSlot := 1, publishedSlots := 1, threads := map[1 := Thread(Some(0), [], Idle)])

  lemma {:induction false} FirstView()
    ensures Reaches(START, ONE_VIEW)
  {
    var s1 := Replaced(START, 7);
    ReplaceReaches(START, 7);
    assert s1.retired == {};
    MutatorStepReaches(s1, Unlock);
    assert MutatorApply(s1, Unlock) == ONE_VIEW;
    MutatorTransitively(START, s1, ONE_VIEW);
    MutatorIsStep(START, ONE_VIEW);
  }

  lemma {:induction false} FirstSlot()
    ensures Reaches(ONE_VIEW, ONE_SLOT)
  {
    var s1 := Apply(ONE_VIEW, 1, TakeNew);
    ThreadReaches(ONE_VIEW, 1, TakeNew);
    ThreadReaches(s1, 1, PublishCount);
    assert Apply(s1, 1, PublishCount) == ONE_SLOT;
    ReachesTransitively(ONE_VIEW, s1, ONE_SLOT);
  }

  lemma {:induction false} FirstDispatch()
    ensures Reaches(START, IN_CALLBACK)
  {
    FirstView();
    FirstSlot();
    ReachesTransitively(START, ONE_VIEW, ONE_SLOT);
    DispatchReaches(ONE_SLOT, 1);

    assert InCallback(ONE_SLOT, 1).threads[1] == IN_CALLBACK.threads[1];
    assert InCallback(ONE_SLOT, 1) == IN_CALLBACK;
    ReachesTransitively(START, ONE_SLOT, IN_CALLBACK);
  }

  /** Thread t after it has loaded, stored and validated the published view. */
  function InCallback(s: State, t: Token): State
    requires Enabled(s, t, LoadView) && s.published.Some?
  {
    var th, v := s.threads[t], s.published.value;
    Move(s.(hazards := s.hazards[th.slot.value := v]), t,
      Thread(th.slot, Shielded(th.frames, Some(v)) + [Frame(v, false)], Idle))
  }

  lemma {:induction false} DispatchReaches(s: State, t: Token)
    requires Enabled(s, t, LoadView) && s.published.Some?
    ensures Reaches(s, InCallback(s, t))
  {
    var s1 := Apply(s, t, LoadView);
    ThreadReaches(s, t, LoadView);
    var s2 := Apply(s1, t, StoreHazard);
    ThreadReaches(s1, t, StoreHazard);
    ReachesTransitively(s, s1, s2);
    var s3 := Apply(s2, t, Validate);
    ThreadReaches(s2, t, Validate);
    ReachesTransitively(s, s2, s3);
    assert s3.threads == InCallback(s, t).threads;
  }

  lemma {:induction false} LosesUnheldView(s: State, t: Token, k: nat) returns (s': State)
    requires Reaches(START, s) && s.mutator.Unlocked? && IsOpen(s, t, k)
    requires FrameOf(s, t, k).view in Live(s) && !Held(s, FrameOf(s, t, k).view)
    ensures Reaches(START, s') && IteratesFreed(s', t, k)
  {
    var v := FrameOf(s, t, k).view;
    UnheldCanBeFreed(s, v);
    s' :| MutatorReaches(s, s') && v !in Live(s') && s'.threads == s.threads;
    MutatorIsStep(s, s');
    ReachesTransitively(START, s, s');
  }

  /**
   From a fresh store: a callback runs a complete dispatch of its own, then a
   listener is added, and the outer dispatch is left with a freed view.
   */
  lemma {:induction false} NestedDispatchCounterexample() returns (s: State)
    ensures Init(START) && Reaches(START, s) && IteratesFreed(s, 1, 0)
  {
    StartIsInit();
    FirstDispatch();
    var s1 := InCallback(IN_CALLBACK, 1);
    DispatchReaches(IN_CALLBACK, 1);
    ReachesTransitively(START, IN_CALLBACK, s1);
    var s2 := Apply(s1, 1, Finish);
    ThreadReaches(s1, 1, Finish);
    ReachesTransitively(START, s1, s2);
    s := LosesUnheldView(s2, 1, 0);
  }

  /** A callback adds a listener: view 8 replaces 7, which cell 0 keeps from being freed. */
  lemma {:induction false} ListenerAddedInCallback() returns (s: State)
    ensures Reaches(IN_CALLBACK, s)
    ensures s == IN_CALLBACK.(retired := {7}, owned := Some(8), published := Some(8))
  {
    var s0 := IN_CALLBACK;
    var s1 := Replaced(s0, 8);
    ReplaceReaches(s0, 8);
    ReclaimKeepsTheHeld(s1);
    assert s1.retired == {7};
    assert 0 < ScannedSlots(s1) && 0 in s1.hazards && s1.hazards[0] == 7;
    assert Held(s1, 7);
    s := s1.(retired := {7}, mutator := Unlocked);
    assert StillHeld(s1) == {7};
    MutatorTransitively(s0, s1, s);
    MutatorIsStep(s0, s);
  }

  /**
   The nested dispatch need not finish: after a callback has added a listener,
   storing the new view in the common cell is enough for the next mutation to
   free the view of the outer dispatch.
   */
  lemma {:induction false} NestedStoreCounterexample() returns (s: State)
    ensures Reaches(START, s) && IteratesFreed(s, 1, 0) && s.threads[1].pc == Stored(8)
  {
    FirstDispatch();
    var s0 := IN_CALLBACK;
    var s1 := ListenerAddedInCallback();
    ReachesTransitively(START, s0, s1);
    var s2 := Apply(s1, 1, LoadView);
    ThreadReaches(s1, 1, LoadView);
    ReachesTransitively(START, s1, s2);
    var s3 := Apply(s2, 1, StoreHazard);
    ThreadReaches(s2, 1, StoreHazard);
    ReachesTransitively(START, s2, s3);
    UnheldCanBeFreed(s3, 7);
    s :| MutatorReaches(s3, s) && 7 !in Live(s) && s.threads == s3.threads;
    MutatorIsStep(s3, s);
    ReachesTransitively(START, s3, s);
  }
}
