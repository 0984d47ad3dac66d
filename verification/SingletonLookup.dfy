/**
 Lock-free lookup of singletons while the array grows, as a step machine: any
 number of readers load size, base and slot one after the other, and one
 writer, which holds the registry lock, publishes base, size and slots.
 */
module SingletonLookup {
  import opened Common

  type Token = nat
  type Obj = nat
  type ArrayId = nat
  type Id = nat

  datatype Reader =
    | Idle
      // `atStart` is what the map held for the id when the call began
    | Begun(id: Id, atStart: Option<Obj>)
    | SizeLoaded(id: Id, atStart: Option<Obj>, size: nat)
    | BaseLoaded(id: Id, atStart: Option<Obj>, base: ArrayId)
    | Returned(id: Id, atStart: Option<Obj>, result: Option<Obj>)

  datatype Writer =
    | Unlocked
      // a larger copy is published as base; its size is not
    | GrownBase(id: Id, mem: Obj)
    | Storing(id: Id, mem: Obj)
      // stored in the current array; the frozen snapshot is another array
    | Mirroring(id: Id, mem: Obj)

  /** All arrays stay allocated until the registry has stopped. */
  datatype State = State(
    arrays: seq<seq<Option<Obj>>>,
    base: ArrayId,
    size: nat,
    frozen: ArrayId,
    frozenSize: nat,
    writer: Writer,
    readers: map<Token, Reader>)

  datatype ReaderAction = Begin(id: Id) | ReadFrozen | LoadSize | LoadBase | LoadSlot | Finish

  datatype WriterAction = StartStore(id: Id, mem: Obj) | StartGrow(id: Id, mem: Obj) | PublishSize | WriteSlot | Mirror

  function At(a: seq<Option<Obj>>, id: Id): Option<Obj> {
    if id < |a| then a[id] else None
  }

  function ArrayOf(s: State, a: ArrayId): seq<Option<Obj>> {
    if a < |s.arrays| then s.arrays[a] else []
  }

  /** The map the store refines: the frozen snapshot for startup ids, the current array for the others. */
  function Held(s: State, id: Id): Option<Obj> {
    if id < s.frozenSize then At(ArrayOf(s, s.frozen), id)
    else if id < s.size then At(ArrayOf(s, s.base), id)
    else None
  }

  predicate Enabled(s: State, t: Token, a: ReaderAction) {
    t in s.readers &&
    var r := s.readers[t];
    match a
    case Begin(_) => r.Idle?
    case ReadFrozen => r.Begun? && r.id < s.frozenSize
    case LoadSize => r.Begun? && r.id >= s.frozenSize
    case LoadBase => r.SizeLoaded? && r.id < r.size
    case LoadSlot => r.BaseLoaded?
    case Finish => r.Returned?
  }

  function Apply(s: State, t: Token, a: ReaderAction): State
    requires Enabled(s, t, a)
  {
    var r := s.readers[t];
    var r' :=
      match a
      case Begin(id) => Begun(id, Held(s, id))
      case ReadFrozen => Returned(r.id, r.atStart, At(ArrayOf(s, s.frozen), r.id))
      case LoadSize => if r.id >= s.size then Returned(r.id, r.atStart, None) else SizeLoaded(r.id, r.atStart, s.size)
      case LoadBase => BaseLoaded(r.id, r.atStart, s.base)
      case LoadSlot => Returned(r.id, r.atStart, At(ArrayOf(s, r.base), r.id))
      case Finish => Idle;
    s.(readers := s.readers[t := r'])
  }

  predicate WriterEnabled(s: State, a: WriterAction) {
    match a
    case StartStore(id, _) => s.writer.Unlocked? && id < s.size && Held(s, id) == None
    case StartGrow(id, _) => s.writer.Unlocked? && id >= s.size
    case PublishSize => s.writer.GrownBase?
    case WriteSlot => s.writer.Storing? && s.base < |s.arrays| && s.writer.id < |s.arrays[s.base]|
    case Mirror => s.writer.Mirroring? && s.frozen < |s.arrays| && s.writer.id < |s.arrays[s.frozen]|
  }

  /** A copy of the array with room for one more id. */
  function Copied(a: seq<Option<Obj>>, newSize: nat): seq<Option<Obj>> {
    seq(newSize, i requires 0 <= i < newSize => At(a, i))
  }

  function WriterApply(s: State, a: WriterAction): State
    requires WriterEnabled(s, a)
  {
    var w := s.writer;
    match a
    case StartStore(id, mem) => s.(writer := Storing(id, mem))
    case StartGrow(id, mem) =>
      s.(arrays := s.arrays + [Copied(ArrayOf(s, s.base), id + 1)], base := |s.arrays|, writer := GrownBase(id, mem))
    case PublishSize => s.(size := w.id + 1, writer := Storing(w.id, w.mem))
    case WriteSlot =>
      s.(arrays := s.arrays[s.base := s.arrays[s.base][w.id := Some(w.mem)]],
         writer := if w.id < s.frozenSize && s.frozen != s.base then Mirroring(w.id, w.mem) else Unlocked)
    case Mirror =>
      s.(arrays := s.arrays[s.frozen := s.arrays[s.frozen][w.id := Some(w.mem)]], writer := Unlocked)
  }

  // --- Invariant ------------------------------------------------------------------------

  ghost predicate ArraysOk(s: State) {
    && s.base < |s.arrays| && s.frozen < |s.arrays|
    && |s.arrays[s.frozen]| == s.frozenSize <= s.size <= |s.arrays[s.base]|
    && (!s.writer.GrownBase? ==> |s.arrays[s.base]| == s.size)
    && (s.writer.GrownBase? ==> |s.arrays[s.base]| == s.writer.id + 1 && s.size <= s.writer.id)
    && (s.writer.Storing? ==> s.writer.id < s.size && At(s.arrays[s.base], s.writer.id) == None)
    && (s.writer.Mirroring? ==>
          && s.writer.id < s.frozenSize && s.frozen != s.base
          && s.arrays[s.base][s.writer.id] == Some(s.writer.mem) && s.arrays[s.frozen][s.writer.id] == None)
    && (s.writer.GrownBase? ==> At(s.arrays[s.base], s.writer.id) == None)
    // the two arrays agree on startup ids, except for the slot that is being mirrored
    && forall i :: 0 <= i < s.frozenSize && !(s.writer.Mirroring? && i == s.writer.id) ==>
         s.arrays[s.frozen][i] == s.arrays[s.base][i]
  }

  /** A superseded array holds nothing that the current one does not. */
  ghost predicate OldArraysOk(s: State) {
    forall a: ArrayId, id: Id :: a < |s.arrays| && At(ArrayOf(s, a), id).Some? ==> At(ArrayOf(s, s.base), id) == At(ArrayOf(s, a), id)
  }

  /** What was held at the start of a call is held now. */
  ghost predicate ReaderOk(s: State, r: Reader) {
    match r
    case Idle => true
    case Begun(id, v) => v.Some? ==> Held(s, id) == v
    case SizeLoaded(id, v, n) => (v.Some? ==> Held(s, id) == v) && s.frozenSize <= id < n <= s.size
    case BaseLoaded(id, v, a) =>
      && (v.Some? ==> Held(s, id) == v && At(ArrayOf(s, a), id) == v) && s.frozenSize <= id < s.size
      && a < |s.arrays| && id < |s.arrays[a]|
    case Returned(id, v, result) => (v.Some? ==> result == v) && (result.Some? ==> Held(s, id) == result)
  }

  ghost predicate Inv(s: State) {
    ArraysOk(s) && OldArraysOk(s) && forall t :: t in s.readers ==> ReaderOk(s, s.readers[t])
  }

  /** Right after start: one array, which is also the snapshot, with the instances stored so far. */
  ghost predicate Init(s: State) {
    && |s.arrays| == 1 && s.base == s.frozen == 0 && s.size == s.frozenSize == |s.arrays[0]|
    && s.writer == Unlocked && forall t :: t in s.readers ==> s.readers[t] == Idle
  }

  /** Nothing that is held is ever lost or replaced. */
  ghost predicate Grew(s: State, s': State) {
    forall id: Id :: Held(s, id).Some? ==> Held(s', id) == Held(s, id)
  }

  lemma {:induction false} ReaderStepKeeps(s: State, t: Token, a: ReaderAction)
    requires Inv(s) && Enabled(s, t, a)
    ensures Inv(Apply(s, t, a)) && Grew(s, Apply(s, t, a))
  {
    var s' := Apply(s, t, a);
    assert forall b: ArrayId :: ArrayOf(s', b) == ArrayOf(s, b);
    assert forall id: Id :: Held(s', id) == Held(s, id);
    assert ReaderOk(s, s.readers[t]);
    forall u | u in s'.readers
      ensures ReaderOk(s', s'.readers[u])
    {
      if u != t {
        assert ReaderOk(s, s.readers[u]);
      }
    }
  }

  lemma {:induction false} GrowKeepsOld(s: State, id: Id, mem: Obj)
    requires ArraysOk(s) && OldArraysOk(s) && WriterEnabled(s, StartGrow(id, mem))
    ensures OldArraysOk(WriterApply(s, StartGrow(id, mem)))
    ensures forall i: Id :: Held(WriterApply(s, StartGrow(id, mem)), i) == Held(s, i)
  {
    var s' := WriterApply(s, StartGrow(id, mem));
    forall i: Id
      ensures At(ArrayOf(s', s'.base), i) == At(ArrayOf(s, s.base), i)
    {
    }
    forall b: ArrayId | b < |s.arrays|
      ensures ArrayOf(s', b) == ArrayOf(s, b)
    {
    }
  }

  lemma {:induction false} WriteKeepsOld(s: State, a: WriterAction)
    requires ArraysOk(s) && OldArraysOk(s) && WriterEnabled(s, a) && (a.WriteSlot? || a.Mirror?)
    ensures OldArraysOk(WriterApply(s, a))
  {
    var s', w := WriterApply(s, a), s.writer;
    forall b: ArrayId, i: Id | b < |s'.arrays| && At(ArrayOf(s', b), i).Some?
      ensures At(ArrayOf(s', s'.base), i) == At(ArrayOf(s', b), i)
    {
      assert At(ArrayOf(s, b), i).Some? ==> At(ArrayOf(s, s.base), i) == At(ArrayOf(s, b), i);
      if i != w.id {
        assert At(ArrayOf(s', b), i) == At(ArrayOf(s, b), i);
        assert At(ArrayOf(s', s'.base), i) == At(ArrayOf(s, s.base), i);
      }
    }
  }

  lemma {:induction false} WriterKeepsArrays(s: State, a: WriterAction)
    requires ArraysOk(s) && OldArraysOk(s) && WriterEnabled(s, a)
    ensures ArraysOk(WriterApply(s, a)) && OldArraysOk(WriterApply(s, a)) && Grew(s, WriterApply(s, a))
  {
    var s' := WriterApply(s, a);
    match a
    case StartGrow(id, mem) => GrowKeepsOld(s, id, mem);
    case WriteSlot => WriteKeepsOld(s, a);
    case Mirror => WriteKeepsOld(s, a);
    case _ => assert forall b: ArrayId :: ArrayOf(s', b) == ArrayOf(s, b);
  }

  lemma {:induction false} WriterKeeps(s: State, a: WriterAction)
    requires Inv(s) && WriterEnabled(s, a)
    ensures Inv(WriterApply(s, a))
  {
    var s' := WriterApply(s, a);
    WriterKeepsArrays(s, a);
    forall t | t in s'.readers
      ensures ReaderOk(s', s'.readers[t])
    {
      assert ReaderOk(s, s.readers[t]);
    }
  }

  datatype Step = ReaderStep(token: Token, action: ReaderAction) | WriterStep(write: WriterAction)

  ghost predicate Next(s: State, step: Step, s': State) {
    match step
    case ReaderStep(t, a) => Enabled(s, t, a) && s' == Apply(s, t, a)
    case WriterStep(a) => WriterEnabled(s, a) && s' == WriterApply(s, a)
  }

  ghost predicate Run(states: seq<State>, steps: seq<Step>) {
    |states| == |steps| + 1 && forall i :: 0 <= i < |steps| ==> Next(states[i], steps[i], states[i + 1])
  }

  lemma {:induction false} RunKeeps(states: seq<State>, steps: seq<Step>, i: nat)
    requires Run(states, steps) && Init(states[0]) && i <= |steps|
    ensures Inv(states[i])
    decreases i
  {
    if i > 0 {
      RunKeeps(states, steps, i - 1);
      assert Next(states[i - 1], steps[i - 1], states[i]);
      match steps[i - 1]
      case ReaderStep(t, a) => ReaderStepKeeps(states[i - 1], t, a);
      case WriterStep(a) => WriterKeeps(states[i - 1], a);
    }
  }

  /** Every slot a lookup is about to read lies inside the array it loaded, which is still allocated. */
  lemma {:induction false} IndexingInBounds(states: seq<State>, steps: seq<Step>, i: nat, t: Token)
    requires Run(states, steps) && Init(states[0]) && i <= |steps|
    requires t in states[i].readers && states[i].readers[t].BaseLoaded?
    ensures var r := states[i].readers[t];
      r.base < |states[i].arrays| && r.id < |states[i].arrays[r.base]|
  {
    RunKeeps(states, steps, i);
    assert ReaderOk(states[i], states[i].readers[t]);
  }

  /**
   Linearizability of lookups: what a call returns is what the map held at the
   start of the call, or, if that was nothing, what it holds at its end.
   */
  lemma {:induction false} LookupReturnsHeldValue(states: seq<State>, steps: seq<Step>, i: nat, t: Token)
    requires Run(states, steps) && Init(states[0]) && i <= |steps|
    requires t in states[i].readers && states[i].readers[t].Returned?
    ensures var r := states[i].readers[t];
      && (r.atStart.Some? ==> r.result == r.atStart)
      && (r.result.Some? ==> Held(states[i], r.id) == r.result)
  {
    RunKeeps(states, steps, i);
    assert ReaderOk(states[i], states[i].readers[t]);
  }

  /** While no store is under way, the snapshot and the current array are one map. */
  lemma {:induction false} ArraysAgree(states: seq<State>, steps: seq<Step>, i: nat, id: Id)
    requires Run(states, steps) && Init(states[0]) && i <= |steps| && states[i].writer.Unlocked?
    ensures Held(states[i], id) == At(ArrayOf(states[i], states[i].base), id)
  {
    RunKeeps(states, steps, i);
  }

  /** The step that ends a store makes the instance what lookups of the id find; nothing was found before. */
  lemma {:induction false} StoreIsVisible(states: seq<State>, steps: seq<Step>, i: nat)
    requires Run(states, steps) && Init(states[0]) && i < |steps| && steps[i].WriterStep?
    requires states[i + 1].writer.Unlocked?
    ensures !states[i].writer.Unlocked?
    ensures Held(states[i + 1], states[i].writer.id) == Some(states[i].writer.mem)
    ensures Held(states[i], states[i].writer.id) == None
  {
    RunKeeps(states, steps, i);
    assert Next(states[i], steps[i], states[i + 1]);
  }
}
