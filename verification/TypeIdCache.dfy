/**
 The cache in front of the interning table, as a step machine: every type has
 one process-wide slot, claimed by the first thread that asks, and every
 registry caches ids in a two-level table indexed by that slot.
 */
module TypeIdCache {
  import opened Common

  type Token = nat
  type Type = nat
  type RegistryId = nat
  type TypeId = nat
  type Slot = nat

  // kTypeIdCacheChunkSize, kTypeIdCacheTopCapacity
  const CHUNK_SIZE: nat := 256
  const TOP_CAPACITY: nat := 256
  // kInvalidTypeId: the slot counter stops there
  const NO_SLOT: nat := 0xFFFF_FFFF

  /** A registry: its interning table, which only grows, and its cache, by chunk and offset. */
  datatype Registry = Registry(table: map<Type, TypeId>, chunks: map<nat, map<nat, TypeId>>)

  datatype Call =
    | Idle
      // `atStart` is what the table said when the call began
    | Begun(reg: RegistryId, t: Type, atStart: Option<TypeId>)
      // a number was taken from the process-wide counter for the type's slot
    | Drawn(reg: RegistryId, t: Type, atStart: Option<TypeId>, slot: Slot)
    | SlotKnown(reg: RegistryId, t: Type, atStart: Option<TypeId>, slot: Slot)
    | Missed(reg: RegistryId, t: Type, atStart: Option<TypeId>, slot: Slot)
    | Uncached(reg: RegistryId, t: Type, atStart: Option<TypeId>)
    | Returned(reg: RegistryId, t: Type, atStart: Option<TypeId>, result: Option<TypeId>)

  datatype State = State(
    nextSlot: nat,
    slotOf: map<Type, Slot>,
    registries: map<RegistryId, Registry>,
    calls: map<Token, Call>)

  datatype Action =
    | Begin(reg: RegistryId, t: Type)
    | LoadSlot
    | PublishSlot
    | ReadCache
      // under the registry's cache mutex; `chunkMade` says whether a missing chunk could be allocated
    | LookupAndCache(chunkMade: bool)
    | LookupUncached
    | Finish

  function Lookup(r: Registry, t: Type): Option<TypeId> {
    if t in r.table then Some(r.table[t]) else None
  }

  function ChunkOf(slot: Slot): nat {
    slot / CHUNK_SIZE
  }

  function OffsetOf(slot: Slot): nat {
    slot % CHUNK_SIZE
  }

  function Cached(r: Registry, slot: Slot): Option<TypeId> {
    var chunk, offset := ChunkOf(slot), OffsetOf(slot);
    if chunk in r.chunks && offset in r.chunks[chunk] then Some(r.chunks[chunk][offset]) else None
  }

  function Put(chunk: map<nat, TypeId>, offset: nat, id: TypeId): map<nat, TypeId> {
    chunk[offset := id]
  }

  function WithCached(r: Registry, slot: Slot, id: TypeId, chunkMade: bool): Registry {
    var chunk, offset := ChunkOf(slot), OffsetOf(slot);
    if chunk in r.chunks then r.(chunks := r.chunks[chunk := Put(r.chunks[chunk], offset, id)])
    else if chunkMade then r.(chunks := r.chunks[chunk := Put(map[], offset, id)])
    else r
  }

  predicate Enabled(s: State, k: Token, a: Action) {
    k in s.calls &&
    var c := s.calls[k];
    match a
    case Begin(reg, _) => c.Idle? && reg in s.registries
    case LoadSlot => c.Begun?
    case PublishSlot => c.Drawn?
    case ReadCache => c.SlotKnown? && c.reg in s.registries
    case LookupAndCache(_) => c.Missed? && c.reg in s.registries
    case LookupUncached => c.Uncached? && c.reg in s.registries
    case Finish => c.Returned?
  }

  function To(s: State, k: Token, c: Call): State {
    s.(calls := s.calls[k := c])
  }

  function Apply(s: State, k: Token, a: Action): State
    requires Enabled(s, k, a)
  {
    var c := s.calls[k];
    match a
    case Begin(reg, t) => To(s, k, Begun(reg, t, Lookup(s.registries[reg], t)))
    case LoadSlot =>
      if c.t in s.slotOf then To(s, k, SlotKnown(c.reg, c.t, c.atStart, s.slotOf[c.t]))
      else if s.nextSlot == NO_SLOT then To(s, k, Uncached(c.reg, c.t, c.atStart))
      else To(s.(nextSlot := s.nextSlot + 1), k, Drawn(c.reg, c.t, c.atStart, s.nextSlot))
    case PublishSlot =>
      // compare-exchange: a slot that another thread published first wins, and the drawn number is wasted
      if c.t in s.slotOf then To(s, k, SlotKnown(c.reg, c.t, c.atStart, s.slotOf[c.t]))
      else To(s.(slotOf := s.slotOf[c.t := c.slot]), k, SlotKnown(c.reg, c.t, c.atStart, c.slot))
    case ReadCache =>
      var cached := Cached(s.registries[c.reg], c.slot);
      if ChunkOf(c.slot) >= TOP_CAPACITY then To(s, k, Uncached(c.reg, c.t, c.atStart))
      else if cached.Some? then To(s, k, Returned(c.reg, c.t, c.atStart, cached))
      else To(s, k, Missed(c.reg, c.t, c.atStart, c.slot))
    case LookupAndCache(chunkMade) =>
      var r := s.registries[c.reg];
      var cached := Cached(r, c.slot);
      if cached.Some? then To(s, k, Returned(c.reg, c.t, c.atStart, cached))
      else
        var id := Lookup(r, c.t);
        To(if id.None? then s
           else s.(registries := s.registries[c.reg := WithCached(r, c.slot, id.value, chunkMade)]),
           k, Returned(c.reg, c.t, c.atStart, id))
    case LookupUncached => To(s, k, Returned(c.reg, c.t, c.atStart, Lookup(s.registries[c.reg], c.t)))
    case Finish => To(s, k, Idle)
  }

  /** Interning adds to a registry's table and changes nothing in it. */
  predicate CanIntern(s: State, reg: RegistryId, t: Type) {
    reg in s.registries && t !in s.registries[reg].table
  }

  function Intern(s: State, reg: RegistryId, t: Type, id: TypeId): State
    requires CanIntern(s, reg, t)
  {
    var r := s.registries[reg];
    s.(registries := s.registries[reg := r.(table := r.table[t := id])])
  }

  // --- Invariant ----------------------------------------------------------------------------

  predicate Drew(calls: map<Token, Call>, k: Token, slot: Slot) {
    k in calls && calls[k].Drawn? && calls[k].slot == slot
  }

  predicate Knows(slotOf: map<Type, Slot>, c: Call) {
    c.SlotKnown? || c.Missed? ==> c.t in slotOf && slotOf[c.t] == c.slot
  }

  /** A drawn number goes to one call, a published slot to one type. */
  ghost predicate SlotsOk(nextSlot: nat, slotOf: map<Type, Slot>, calls: map<Token, Call>) {
    && (forall t :: t in slotOf ==> slotOf[t] < nextSlot)
    && (forall t, u :: t in slotOf && u in slotOf && slotOf[t] == slotOf[u] ==> t == u)
    && (forall k: Token, slot: Slot :: Drew(calls, k, slot) ==> slot < nextSlot)
    && (forall k: Token, l: Token, slot: Slot :: Drew(calls, k, slot) && Drew(calls, l, slot) ==> k == l)
    && (forall k: Token, t :: t in slotOf ==> !Drew(calls, k, slotOf[t]))
    && (forall k :: k in calls ==> Knows(slotOf, calls[k]))
  }

  /** What a registry caches under a type's slot is what its table says for that type. */
  ghost predicate CacheOk(s: State) {
    && (forall reg, t :: reg in s.registries && t in s.slotOf && Cached(s.registries[reg], s.slotOf[t]).Some? ==>
          Cached(s.registries[reg], s.slotOf[t]) == Lookup(s.registries[reg], t))
    && (forall reg, slot: Slot :: reg in s.registries && Cached(s.registries[reg], slot).Some? ==>
          exists t :: t in s.slotOf && s.slotOf[t] == slot)
  }

  ghost predicate CallOk(s: State, c: Call) {
    c.Idle? ||
    (c.reg in s.registries
     && (c.atStart.Some? ==> Lookup(s.registries[c.reg], c.t) == c.atStart)
     && (c.Returned? ==>
           && (c.atStart.Some? ==> c.result == c.atStart)
           && (c.result.Some? ==> Lookup(s.registries[c.reg], c.t) == c.result)))
  }

  ghost predicate Inv(s: State) {
    SlotsOk(s.nextSlot, s.slotOf, s.calls) && CacheOk(s) && forall k :: k in s.calls ==> CallOk(s, s.calls[k])
  }

  ghost predicate Init(s: State) {
    && s.nextSlot == 0 && s.slotOf == map[]
    && (forall reg :: reg in s.registries ==> s.registries[reg].chunks == map[])
    && (forall k :: k in s.calls ==> s.calls[k] == Idle)
  }

  lemma {:induction false} ChunksSeparateSlots(a: Slot, b: Slot)
    requires ChunkOf(a) == ChunkOf(b) && OffsetOf(a) == OffsetOf(b)
    ensures a == b
  {
  }

  lemma {:induction false} CachedAfter(r: Registry, slot: Slot, id: TypeId, chunkMade: bool, x: Slot)
    ensures var c := Cached(WithCached(r, slot, id, chunkMade), x);
      c == Cached(r, x) || (x == slot && c == Some(id))
    ensures WithCached(r, slot, id, chunkMade).table == r.table
  {
    if ChunkOf(x) == ChunkOf(slot) && OffsetOf(x) == OffsetOf(slot) {
      ChunksSeparateSlots(x, slot);
    }
  }

  lemma {:induction false} OthersDrew(calls: map<Token, Call>, k: Token, c: Call, l: Token, slot: Slot)
    requires l != k
    ensures Drew(calls[k := c], l, slot) <==> Drew(calls, l, slot)
  {
  }

  lemma {:induction false} MoveKeepsSlots(nextSlot: nat, slotOf: map<Type, Slot>, calls: map<Token, Call>, k: Token, c: Call)
    requires SlotsOk(nextSlot, slotOf, calls) && !c.Drawn? && Knows(slotOf, c)
    ensures SlotsOk(nextSlot, slotOf, calls[k := c])
  {
    var calls' := calls[k := c];
    forall l: Token, slot: Slot | Drew(calls', l, slot)
      ensures Drew(calls, l, slot)
    {
      OthersDrew(calls, k, c, l, slot);
    }
    assert forall t, l: Token :: t in slotOf ==> !Drew(calls', l, slotOf[t]);
  }

  lemma {:induction false} DrawKeepsSlots(nextSlot: nat, slotOf: map<Type, Slot>, calls: map<Token, Call>, k: Token, c: Call)
    requires SlotsOk(nextSlot, slotOf, calls) && c.Drawn? && c.slot == nextSlot
    ensures SlotsOk(nextSlot + 1, slotOf, calls[k := c])
  {
    var calls' := calls[k := c];
    forall l: Token, slot: Slot | Drew(calls', l, slot)
      ensures Drew(calls, l, slot) || (l == k && slot == nextSlot)
    {
      if l != k {
        OthersDrew(calls, k, c, l, slot);
      }
    }
    assert forall t, l: Token :: t in slotOf ==> !Drew(calls', l, slotOf[t]);
  }

  lemma {:induction false} PublishKeepsSlots(nextSlot: nat, slotOf: map<Type, Slot>, calls: map<Token, Call>, k: Token, c: Call)
    requires SlotsOk(nextSlot, slotOf, calls) && c.SlotKnown? && c.t !in slotOf && Drew(calls, k, c.slot)
    ensures SlotsOk(nextSlot, slotOf[c.t := c.slot], calls[k := c])
  {
    var calls' := calls[k := c];
    var slotOf' := slotOf[c.t := c.slot];
    forall l: Token, slot: Slot | Drew(calls', l, slot)
      ensures Drew(calls, l, slot) && slot != c.slot
    {
      OthersDrew(calls, k, c, l, slot);
    }
    assert forall t, l: Token :: t in slotOf' ==> !Drew(calls', l, slotOf'[t]);
  }

  lemma {:induction false} StepKeepsSlots(s: State, k: Token, a: Action)
    requires SlotsOk(s.nextSlot, s.slotOf, s.calls) && Enabled(s, k, a)
    ensures var s' := Apply(s, k, a); SlotsOk(s'.nextSlot, s'.slotOf, s'.calls)
  {
    var c, c' := s.calls[k], Apply(s, k, a).calls[k];
    if c'.Drawn? {
      DrawKeepsSlots(s.nextSlot, s.slotOf, s.calls, k, c');
    } else if c.Drawn? && c.t !in s.slotOf {
      PublishKeepsSlots(s.nextSlot, s.slotOf, s.calls, k, c');
    } else {
      MoveKeepsSlots(s.nextSlot, s.slotOf, s.calls, k, c');
    }
  }

  lemma {:induction false} StepKeepsCache(s: State, k: Token, a: Action)
    requires Inv(s) && Enabled(s, k, a)
    ensures CacheOk(Apply(s, k, a))
  {
    if a.LookupAndCache? {
      LookupKeepsCache(s, k, a.chunkMade);
    } else if a == PublishSlot {
      PublishKeepsCache(s, k);
    }
  }

  /** What a miss caches is what the table says. */
  lemma {:induction false} LookupKeepsCache(s: State, k: Token, chunkMade: bool)
    requires Inv(s) && Enabled(s, k, LookupAndCache(chunkMade))
    ensures CacheOk(Apply(s, k, LookupAndCache(chunkMade)))
  {
    var s', c := Apply(s, k, LookupAndCache(chunkMade)), s.calls[k];
    var r := s.registries[c.reg];
    assert Knows(s.slotOf, c);
    forall slot: Slot
      ensures var now := Cached(s'.registries[c.reg], slot);
        now == Cached(r, slot) || (slot == c.slot && now == Lookup(r, c.t))
    {
      if Lookup(r, c.t).Some? {
        CachedAfter(r, c.slot, Lookup(r, c.t).value, chunkMade, slot);
      }
    }
    assert s'.registries[c.reg].table == r.table;
  }

  /** A freshly published slot has nothing cached under it. */
  lemma {:induction false} PublishKeepsCache(s: State, k: Token)
    requires Inv(s) && Enabled(s, k, PublishSlot)
    ensures CacheOk(Apply(s, k, PublishSlot))
  {
    var s', c := Apply(s, k, PublishSlot), s.calls[k];
    assert Drew(s.calls, k, c.slot);
    assert forall t :: t in s.slotOf ==> s.slotOf[t] != c.slot;
    forall reg | reg in s.registries && c.t !in s.slotOf
      ensures Cached(s.registries[reg], c.slot) == None
    {
    }
    forall reg, slot: Slot | reg in s'.registries && Cached(s'.registries[reg], slot).Some?
      ensures exists t :: t in s'.slotOf && s'.slotOf[t] == slot
    {
      var t :| t in s.slotOf && s.slotOf[t] == slot;
      assert t in s'.slotOf && s'.slotOf[t] == slot;
    }
  }

  predicate SameTables(s: State, s': State) {
    forall reg :: reg in s.registries ==> reg in s'.registries && s'.registries[reg].table == s.registries[reg].table
  }

  lemma {:induction false} StepKeepsTables(s: State, k: Token, a: Action)
    requires Enabled(s, k, a)
    ensures SameTables(s, Apply(s, k, a))
    ensures Apply(s, k, a).calls == s.calls[k := Apply(s, k, a).calls[k]]
  {
  }

  /** A cached value that a call reads is what the table says for its type. */
  lemma {:induction false} OwnCallOk(s: State, k: Token, a: Action)
    requires CacheOk(s) && Enabled(s, k, a) && CallOk(s, s.calls[k]) && Knows(s.slotOf, s.calls[k])
    ensures CallOk(s, Apply(s, k, a).calls[k])
  {
  }

  lemma {:induction false} SameTablesKeep(s: State, s': State, c: Call)
    requires SameTables(s, s') && CallOk(s, c)
    ensures CallOk(s', c)
  {
  }

  lemma {:induction false} StepKeepsCalls(s: State, k: Token, a: Action)
    requires Inv(s) && Enabled(s, k, a)
    ensures forall l :: l in Apply(s, k, a).calls ==> CallOk(Apply(s, k, a), Apply(s, k, a).calls[l])
  {
    var s' := Apply(s, k, a);
    StepKeepsTables(s, k, a);
    OwnCallOk(s, k, a);
    forall l | l in s'.calls
      ensures CallOk(s', s'.calls[l])
    {
      SameTablesKeep(s, s', s'.calls[l]);
    }
  }

  lemma {:induction false} StepKeeps(s: State, k: Token, a: Action)
    requires Inv(s) && Enabled(s, k, a)
    ensures Inv(Apply(s, k, a))
  {
    StepKeepsSlots(s, k, a);
    StepKeepsCache(s, k, a);
    StepKeepsCalls(s, k, a);
  }

  lemma {:induction false} InternKeeps(s: State, reg: RegistryId, t: Type, id: TypeId)
    requires Inv(s) && CanIntern(s, reg, t)
    ensures Inv(Intern(s, reg, t, id))
  {
    var s' := Intern(s, reg, t, id);
    forall r, x: Slot | r in s'.registries
      ensures Cached(s'.registries[r], x) == Cached(s.registries[r], x)
    {
    }
    forall k | k in s'.calls
      ensures CallOk(s', s'.calls[k])
    {
      assert CallOk(s, s.calls[k]);
    }
  }

  datatype Step = CallStep(token: Token, action: Action) | InternStep(reg: RegistryId, t: Type, id: TypeId)

  ghost predicate Next(s: State, step: Step, s': State) {
    match step
    case CallStep(k, a) => Enabled(s, k, a) && s' == Apply(s, k, a)
    case InternStep(reg, t, id) => CanIntern(s, reg, t) && s' == Intern(s, reg, t, id)
  }

  ghost predicate Run(states: seq<State>, steps: seq<Step>) {
    |states| == |steps| + 1 && forall i :: 0 <= i < |steps| ==> Next(states[i], steps[i], states[i + 1])
  }

  lemma {:induction false} RunKeeps(states: seq<State>, steps: seq<Step>, i: nat)
    requires Run(states, steps) && Init(states[0]) && i <= |steps|
    ensures Inv(states[i])
    decreases i
  {
    if i > 0 {
      RunKeeps(states, steps, i - 1);
      assert Next(states[i - 1], steps[i - 1], states[i]);
      match steps[i - 1]
      case CallStep(k, a) => StepKeeps(states[i - 1], k, a);
      case InternStep(reg, t, id) => InternKeeps(states[i - 1], reg, t, id);
    }
  }

  /** Distinct types never share a cache slot, however the claims of all threads interleave. */
  lemma {:induction false} SlotsAreDistinct(states: seq<State>, steps: seq<Step>, i: nat, t: Type, u: Type)
    requires Run(states, steps) && Init(states[0]) && i <= |steps|
    requires t in states[i].slotOf && u in states[i].slotOf && t != u
    ensures states[i].slotOf[t] != states[i].slotOf[u]
  {
    RunKeeps(states, steps, i);
  }

  /**
   What typeIdFor returns is what the interning table of its registry says: the
   id it held when the call began, or, if there was none yet, what it holds now
   or nothing.
   */
  lemma {:induction false} TypeIdForIsLookup(states: seq<State>, steps: seq<Step>, i: nat, k: Token)
    requires Run(states, steps) && Init(states[0]) && i <= |steps|
    requires k in states[i].calls && states[i].calls[k].Returned?
    ensures var c := states[i].calls[k];
      && c.reg in states[i].registries
      && (c.atStart.Some? ==> c.result == c.atStart)
      && (c.result.Some? ==> c.result == Lookup(states[i].registries[c.reg], c.t))
  {
    RunKeeps(states, steps, i);
    assert CallOk(states[i], states[i].calls[k]);
  }
}
