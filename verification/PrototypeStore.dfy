/**
 Prototype beans: slots with reference counts, the tracked handles that name
 them, and nested destruction when a dying object owns handles itself.
 */
module PrototypeStore {
  import opened Common

  type Obj = nat
  type SlotId = nat

  /** Where a handle is kept: outside all prototype objects, or in a member of one. */
  datatype Loc = External(id: nat) | Member(obj: Obj, index: nat)

  /** The non-empty prototype handles and the slot each one names. */
  type Handles = map<Loc, SlotId>

  datatype AllocationResult = Slot(id: SlotId) | SlotLimitReached

  // --- Counting ------------------------------------------------------------------------

  function Naming(handles: Handles, s: SlotId): set<Loc> {
    set l | l in handles && handles[l] == s
  }

  /** The reference count of a slot is the number of handles naming it. */
  ghost predicate CountsOk(refcounts: seq<nat>, handles: Handles) {
    && (forall l :: l in handles ==> handles[l] < |refcounts|)
    && forall s :: 0 <= s < |refcounts| ==> refcounts[s] == |Naming(handles, s)|
  }

  lemma {:induction false} NamingAdded(handles: Handles, l: Loc, s: SlotId, t: SlotId)
    requires l !in handles
    ensures |Naming(handles[l := s], t)| == |Naming(handles, t)| + (if t == s then 1 else 0)
  {
    if t == s {
      assert Naming(handles[l := s], t) == Naming(handles, t) + {l};
    } else {
      assert Naming(handles[l := s], t) == Naming(handles, t);
    }
  }

  lemma {:induction false} NamingRemoved(handles: Handles, l: Loc, t: SlotId)
    requires l in handles
    ensures |Naming(handles - {l}, t)| == |Naming(handles, t)| - (if t == handles[l] then 1 else 0)
  {
    assert l in Naming(handles, handles[l]);
    assert Naming(handles - {l}, t) == Naming(handles, t) - (if t == handles[l] then {l} else {});
  }

  lemma {:induction false} AddHandle(refcounts: seq<nat>, handles: Handles, l: Loc, s: SlotId)
    requires CountsOk(refcounts, handles) && l !in handles && s < |refcounts|
    ensures CountsOk(refcounts[s := refcounts[s] + 1], handles[l := s])
  {
    var counts := refcounts[s := refcounts[s] + 1];
    forall t | 0 <= t < |counts|
      ensures counts[t] == |Naming(handles[l := s], t)|
    {
      NamingAdded(handles, l, s, t);
    }
  }

  lemma {:induction false} RemoveHandle(refcounts: seq<nat>, handles: Handles, l: Loc)
    requires CountsOk(refcounts, handles) && l in handles
    ensures refcounts[handles[l]] > 0
    ensures CountsOk(refcounts[handles[l] := refcounts[handles[l]] - 1], handles - {l})
  {
    UncountedHasNoHandle(refcounts, handles, l);
    var counts := refcounts[handles[l] := refcounts[handles[l]] - 1];
    forall t | 0 <= t < |counts|
      ensures counts[t] == |Naming(handles - {l}, t)|
    {
      NamingRemoved(handles, l, t);
    }
  }

  lemma {:induction false} RenameHandle(refcounts: seq<nat>, handles: Handles, src: Loc, dst: Loc)
    requires CountsOk(refcounts, handles) && src in handles && dst !in handles
    ensures CountsOk(refcounts, (handles - {src})[dst := handles[src]])
  {
    RemoveHandle(refcounts, handles, src);
    var s := handles[src];
    AddHandle(refcounts[s := refcounts[s] - 1], handles - {src}, dst, s);
    assert refcounts[s := refcounts[s] - 1][s := refcounts[s]] == refcounts;
  }

  lemma {:induction false} CountedHasHandle(refcounts: seq<nat>, handles: Handles, s: SlotId) returns (l: Loc)
    requires CountsOk(refcounts, handles) && s < |refcounts| && refcounts[s] > 0
    ensures l in handles && handles[l] == s
  {
    assert Naming(handles, s) != {};
    l :| l in Naming(handles, s);
  }

  /** A slot whose count is zero is named by no handle. */
  lemma {:induction false} UncountedHasNoHandle(refcounts: seq<nat>, handles: Handles, l: Loc)
    requires CountsOk(refcounts, handles) && l in handles
    ensures refcounts[handles[l]] > 0
  {
    assert l in Naming(handles, handles[l]);
  }

  // --- Slots ----------------------------------------------------------------------------

  /** Slots that have a handle, or whose last handle is just going away. */
  function Busy(refcounts: seq<nat>, closing: set<SlotId>): set<SlotId> {
    set s: SlotId | 0 <= s < |refcounts| && (refcounts[s] > 0 || s in closing)
  }

  /** Every slot is exactly one of free, reserved for a bean under construction, named by handles, or closing. */
  ghost predicate SlotsOk(
    refcounts: seq<nat>, free: seq<SlotId>, reserved: set<SlotId>, closing: set<SlotId>, liveSlotCount: nat)
  {
    && NoDuplicates(free)
    && (forall s :: s in free || s in reserved || s in closing ==> s < |refcounts|)
    && (forall s :: 0 <= s < |refcounts| ==> (refcounts[s] == 0 <==> s in free || s in reserved || s in closing))
    && (forall s :: s in free ==> s !in reserved && s !in closing)
    && reserved !! closing
    && liveSlotCount == |Busy(refcounts, closing)|
  }

  lemma {:induction false} ReserveFreeSlot(
    refcounts: seq<nat>, free: seq<SlotId>, reserved: set<SlotId>, closing: set<SlotId>, liveSlotCount: nat)
    requires SlotsOk(refcounts, free, reserved, closing, liveSlotCount) && free != []
    ensures SlotsOk(refcounts, free[1..], reserved + {free[0]}, closing, liveSlotCount)
  {
    assert free[0] in free && forall s :: s in free[1..] ==> s in free;
    assert free == [free[0]] + free[1..];
  }

  lemma {:induction false} ReserveNewSlot(
    refcounts: seq<nat>, free: seq<SlotId>, reserved: set<SlotId>, closing: set<SlotId>, liveSlotCount: nat)
    requires SlotsOk(refcounts, free, reserved, closing, liveSlotCount)
    ensures SlotsOk(refcounts + [0], free, reserved + {|refcounts|}, closing, liveSlotCount)
  {
    assert Busy(refcounts + [0], closing) == Busy(refcounts, closing);
  }

  lemma {:induction false} ActivateSlot(
    refcounts: seq<nat>, free: seq<SlotId>, reserved: set<SlotId>, closing: set<SlotId>, liveSlotCount: nat, s: SlotId)
    requires SlotsOk(refcounts, free, reserved, closing, liveSlotCount) && s in reserved
    ensures refcounts[s] == 0
    ensures SlotsOk(refcounts[s := 1], free, reserved - {s}, closing, liveSlotCount + 1)
  {
    assert s !in Busy(refcounts, closing);
    assert Busy(refcounts[s := 1], closing) == Busy(refcounts, closing) + {s};
  }

  lemma {:induction false} UnreserveSlot(
    refcounts: seq<nat>, free: seq<SlotId>, reserved: set<SlotId>, closing: set<SlotId>, liveSlotCount: nat, s: SlotId)
    requires SlotsOk(refcounts, free, reserved, closing, liveSlotCount) && s in reserved
    ensures SlotsOk(refcounts, [s] + free, reserved - {s}, closing, liveSlotCount)
  {
  }

  /** Counting up, and down to a positive count, changes no slot's state. */
  lemma {:induction false} RecountSlot(
    refcounts: seq<nat>, free: seq<SlotId>, reserved: set<SlotId>, closing: set<SlotId>, liveSlotCount: nat, s: SlotId, n: nat)
    requires SlotsOk(refcounts, free, reserved, closing, liveSlotCount) && s < |refcounts| && refcounts[s] > 0 && n > 0
    ensures SlotsOk(refcounts[s := n], free, reserved, closing, liveSlotCount)
  {
    assert Busy(refcounts[s := n], closing) == Busy(refcounts, closing);
  }

  lemma {:induction false} CloseSlot(
    refcounts: seq<nat>, free: seq<SlotId>, reserved: set<SlotId>, closing: set<SlotId>, liveSlotCount: nat, s: SlotId)
    requires SlotsOk(refcounts, free, reserved, closing, liveSlotCount) && s < |refcounts| && refcounts[s] > 0
    ensures s !in closing && s !in reserved && liveSlotCount > 0
    ensures SlotsOk(refcounts[s := 0], free, reserved, closing + {s}, liveSlotCount)
  {
    assert s in Busy(refcounts, closing);
    assert Busy(refcounts[s := 0], closing + {s}) == Busy(refcounts, closing);
  }

  /** One handle less: the slot keeps its count, or closes with its last handle. */
  lemma {:induction false} UncountSlot(
    refcounts: seq<nat>, handles: Handles, free: seq<SlotId>, reserved: set<SlotId>, closing: set<SlotId>,
    liveSlotCount: nat, l: Loc)
    requires CountsOk(refcounts, handles) && SlotsOk(refcounts, free, reserved, closing, liveSlotCount) && l in handles
    ensures var s, left := handles[l], handles - {l};
      && s < |refcounts| && refcounts[s] > 0 && s !in closing && s !in reserved
      && CountsOk(refcounts[s := refcounts[s] - 1], left)
      && SlotsOk(refcounts[s := refcounts[s] - 1], free, reserved,
                 if refcounts[s] == 1 then closing + {s} else closing, liveSlotCount)
      && (refcounts[s] == 1 <==> forall x :: x in left ==> left[x] != s)
  {
    var s, left := handles[l], handles - {l};
    RemoveHandle(refcounts, handles, l);
    CloseSlot(refcounts, free, reserved, closing, liveSlotCount, s);
    var counts := refcounts[s := refcounts[s] - 1];
    if refcounts[s] > 1 {
      RecountSlot(refcounts, free, reserved, closing, liveSlotCount, s, refcounts[s] - 1);
      var x := CountedHasHandle(counts, left, s);
    } else {
      forall x | x in left
        ensures left[x] != s
      {
        UncountedHasNoHandle(counts, left, x);
      }
    }
  }

  lemma {:induction false} FreeClosedSlot(
    refcounts: seq<nat>, free: seq<SlotId>, reserved: set<SlotId>, closing: set<SlotId>, liveSlotCount: nat, s: SlotId)
    requires SlotsOk(refcounts, free, reserved, closing, liveSlotCount) && s in closing
    ensures liveSlotCount > 0
    ensures SlotsOk(refcounts, [s] + free, reserved, closing - {s}, liveSlotCount - 1)
  {
    assert s in Busy(refcounts, closing);
    assert Busy(refcounts, closing - {s}) == Busy(refcounts, closing) - {s};
  }

  ghost predicate ObjectsOk(
    metas: seq<Option<Obj>>, free: seq<SlotId>, reserved: set<SlotId>, handles: Handles, dying: set<Obj>, taken: seq<Obj>)
  {
    && (forall s, t :: 0 <= s < |metas| && 0 <= t < |metas| && metas[s].Some? && metas[s] == metas[t] ==> s == t)
    && (forall s :: 0 <= s < |metas| && s in free ==> metas[s] == None)
    && (forall s :: 0 <= s < |metas| && s in reserved ==> metas[s].Some?)
    && (forall o: Obj :: Some(o) in metas ==> o !in taken)
    && NoDuplicates(taken)
    && (forall o :: o in dying ==> o in taken)
    && (forall l: Loc :: l in handles && l.Member? ==> Some(l.obj) in metas || l.obj in dying)
  }

  lemma {:induction false} HeldExcept(metas: seq<Option<Obj>>, slot: SlotId)
    requires slot < |metas|
    requires forall s, t :: 0 <= s < |metas| && 0 <= t < |metas| && metas[s].Some? && metas[s] == metas[t] ==> s == t
    ensures forall o: Obj :: Some(o) in metas[slot := None] <==> Some(o) in metas && Some(o) != metas[slot]
  {
    forall o: Obj | Some(o) in metas && Some(o) != metas[slot]
      ensures Some(o) in metas[slot := None]
    {
      var s :| 0 <= s < |metas| && metas[s] == Some(o);
      assert metas[slot := None][s] == Some(o);
    }
  }

  lemma {:induction false} ReuseSlot(
    metas: seq<Option<Obj>>, free: seq<SlotId>, reserved: set<SlotId>, handles: Handles, dying: set<Obj>, taken: seq<Obj>,
    mem: Obj)
    requires ObjectsOk(metas, free, reserved, handles, dying, taken) && Some(mem) !in metas && mem !in taken
    requires free != [] && free[0] < |metas| && NoDuplicates(free)
    ensures ObjectsOk(metas[free[0] := Some(mem)], free[1..], reserved + {free[0]}, handles, dying, taken)
  {
    var m := metas[free[0] := Some(mem)];
    forall o: Obj | Some(o) in metas
      ensures Some(o) in m
    {
      var s :| 0 <= s < |metas| && metas[s] == Some(o);
      assert m[s] == Some(o);
    }
  }

  lemma {:induction false} AppendSlot(
    metas: seq<Option<Obj>>, free: seq<SlotId>, reserved: set<SlotId>, handles: Handles, dying: set<Obj>, taken: seq<Obj>,
    mem: Obj)
    requires ObjectsOk(metas, free, reserved, handles, dying, taken) && Some(mem) !in metas && mem !in taken
    requires forall s :: s in free ==> s < |metas|
    ensures ObjectsOk(metas + [Some(mem)], free, reserved + {|metas|}, handles, dying, taken)
  {
  }

  // --- Who survives the loss of a handle ---------------------------------------------------

  ghost predicate Holds(metas: seq<Option<Obj>>, handles: Handles, l: Loc, o: Obj) {
    l in handles && handles[l] < |metas| && metas[handles[l]] == Some(o)
  }

  ghost predicate Constructing(metas: seq<Option<Obj>>, reserved: set<SlotId>, o: Obj) {
    exists s :: 0 <= s < |metas| && s in reserved && metas[s] == Some(o)
  }

  /** The object is under construction, or named by a handle outside or inside one of `keep`. */
  ghost predicate HasSupport(
    metas: seq<Option<Obj>>, handles: Handles, reserved: set<SlotId>, keep: set<Obj>, o: Obj)
  {
    || Constructing(metas, reserved, o)
    || exists l :: Holds(metas, handles, l, o) && (l.External? || l.obj in keep)
  }

  ghost predicate Supported(metas: seq<Option<Obj>>, handles: Handles, reserved: set<SlotId>, keep: set<Obj>) {
    forall o {:trigger HasSupport(metas, handles, reserved, keep, o)} ::
      o in keep ==> HasSupport(metas, handles, reserved, keep, o)
  }

  ghost predicate Survives(metas: seq<Option<Obj>>, handles: Handles, reserved: set<SlotId>, o: Obj) {
    exists keep: set<Obj> :: o in keep && Supported(metas, handles, reserved, keep)
  }

  ghost function HeldObjects(metas: seq<Option<Obj>>): set<Obj> {
    set s | 0 <= s < |metas| && metas[s].Some? :: metas[s].value
  }

  ghost function Survivors(metas: seq<Option<Obj>>, handles: Handles, reserved: set<SlotId>): set<Obj> {
    set o | o in HeldObjects(metas) && Survives(metas, handles, reserved, o)
  }

  lemma {:induction false} SupportedAreHeld(
    metas: seq<Option<Obj>>, handles: Handles, reserved: set<SlotId>, keep: set<Obj>, o: Obj)
    requires Supported(metas, handles, reserved, keep) && o in keep
    ensures Some(o) in metas && o in HeldObjects(metas)
  {
    assert HasSupport(metas, handles, reserved, keep, o);
    if Constructing(metas, reserved, o) {
      var s :| 0 <= s < |metas| && s in reserved && metas[s] == Some(o);
    } else {
      var l :| Holds(metas, handles, l, o) && (l.External? || l.obj in keep);
      assert metas[handles[l]] == Some(o);
    }
  }

  /** The surviving objects support each other. */
  lemma {:induction false} SurvivorsSupported(metas: seq<Option<Obj>>, handles: Handles, reserved: set<SlotId>)
    ensures Supported(metas, handles, reserved, Survivors(metas, handles, reserved))
  {
    var all := Survivors(metas, handles, reserved);
    forall o | o in all
      ensures HasSupport(metas, handles, reserved, all, o)
    {
      var keep: set<Obj> :| o in keep && Supported(metas, handles, reserved, keep);
      assert HasSupport(metas, handles, reserved, keep, o);
      if !Constructing(metas, reserved, o) {
        var l :| Holds(metas, handles, l, o) && (l.External? || l.obj in keep);
        if l.Member? {
          SupportedAreHeld(metas, handles, reserved, keep, l.obj);
        }
      }
    }
  }

  lemma {:induction false} KeptIsNamed(
    metas: seq<Option<Obj>>, handles: Handles, reserved: set<SlotId>, keep: set<Obj>, slot: SlotId)
    requires Supported(metas, handles, reserved, keep)
    requires slot < |metas| && metas[slot].Some? && metas[slot].value in keep
    requires forall s, t :: 0 <= s < |metas| && 0 <= t < |metas| && metas[s].Some? && metas[s] == metas[t] ==> s == t
    ensures slot in reserved || exists l :: l in handles && handles[l] == slot
  {
    var o := metas[slot].value;
    assert HasSupport(metas, handles, reserved, keep, o);
    if Constructing(metas, reserved, o) {
      var s :| 0 <= s < |metas| && s in reserved && metas[s] == Some(o);
      assert s == slot;
    } else {
      var l :| Holds(metas, handles, l, o) && (l.External? || l.obj in keep);
      assert handles[l] == slot;
    }
  }

  /** Handles inside an object that is not kept support nothing that is kept. */
  lemma {:induction false} UnkeptMemberSupportsNothing(
    metas: seq<Option<Obj>>, handles: Handles, reserved: set<SlotId>, keep: set<Obj>, l: Loc)
    requires Supported(metas, handles, reserved, keep) && l.Member? && l.obj !in keep
    ensures Supported(metas, handles - {l}, reserved, keep)
  {
    forall o | o in keep
      ensures HasSupport(metas, handles - {l}, reserved, keep, o)
    {
      assert HasSupport(metas, handles, reserved, keep, o);
      if !Constructing(metas, reserved, o) {
        var m :| Holds(metas, handles, m, o) && (m.External? || m.obj in keep);
        assert Holds(metas, handles - {l}, m, o);
      }
    }
  }

  lemma {:induction false} ClearingOtherSlot(
    metas: seq<Option<Obj>>, handles: Handles, reserved: set<SlotId>, keep: set<Obj>, s: SlotId)
    requires Supported(metas, handles, reserved, keep) && s < |metas| && (metas[s].Some? ==> metas[s].value !in keep)
    ensures Supported(metas[s := None], handles, reserved, keep)
  {
    forall o | o in keep
      ensures HasSupport(metas[s := None], handles, reserved, keep, o)
    {
      assert HasSupport(metas, handles, reserved, keep, o);
      if Constructing(metas, reserved, o) {
        var t :| 0 <= t < |metas| && t in reserved && metas[t] == Some(o);
        assert metas[s := None][t] == Some(o);
      } else {
        var l :| Holds(metas, handles, l, o) && (l.External? || l.obj in keep);
        assert Holds(metas[s := None], handles, l, o);
      }
    }
  }

  // --- What a release leaves behind ----------------------------------------------------------

  datatype Snapshot = Snapshot(metas: seq<Option<Obj>>, handles: Handles, taken: seq<Obj>)

  ghost predicate Newly(a: Snapshot, b: Snapshot, o: Obj) {
    o in b.taken && o !in a.taken
  }

  /**
   From `a` to `b` only objects of `a` were handed out for destruction, and
   exactly the handles in `gone` and those inside such objects went away.
   */
  ghost predicate Shrinks(a: Snapshot, b: Snapshot, gone: set<Loc>) {
    && |b.metas| == |a.metas| && a.taken <= b.taken
    && (forall s :: 0 <= s < |a.metas| ==>
          b.metas[s] == a.metas[s] || (b.metas[s] == None && a.metas[s].value in b.taken))
    && (forall i :: |a.taken| <= i < |b.taken| ==> Some(b.taken[i]) in a.metas)
    && (forall l :: l in b.handles ==>
          l in a.handles && b.handles[l] == a.handles[l] && l !in gone && !(l.Member? && Newly(a, b, l.obj)))
    && (forall l :: l in a.handles && l !in b.handles ==> l in gone || (l.Member? && Newly(a, b, l.obj)))
  }

  lemma {:induction false} ShrinksTransitively(a: Snapshot, b: Snapshot, c: Snapshot, g: set<Loc>, h: set<Loc>)
    requires Shrinks(a, b, g) && Shrinks(b, c, h)
    ensures Shrinks(a, c, g + h)
  {
    forall i | |a.taken| <= i < |c.taken|
      ensures Some(c.taken[i]) in a.metas
    {
      if i >= |b.taken| {
        var s :| 0 <= s < |b.metas| && b.metas[s] == Some(c.taken[i]);
        assert a.metas[s] == Some(c.taken[i]);
      } else {
        assert c.taken[i] == b.taken[i];
      }
    }
    forall s | 0 <= s < |a.metas|
      ensures c.metas[s] == a.metas[s] || (c.metas[s] == None && a.metas[s].value in c.taken)
    {
      if b.metas[s] != a.metas[s] {
        assert a.metas[s].value in b.taken;
      }
    }
  }

  lemma {:induction false} ShrinksFurther(a: Snapshot, b: Snapshot, c: Snapshot, gone: set<Loc>)
    requires Shrinks(a, b, gone) && Shrinks(b, c, {})
    ensures Shrinks(a, c, gone)
  {
    ShrinksTransitively(a, b, c, gone, {});
    assert gone + {} == gone;
  }

  lemma {:induction false} ShrinksHandles(a: Snapshot, b: Snapshot, gone: set<Loc>)
    requires Shrinks(a, b, gone)
    ensures |b.handles| <= |a.handles|
  {
    KeysBound(b.handles.Keys, a.handles.Keys);
  }

  lemma {:induction false} KeysBound(x: set<Loc>, y: set<Loc>)
    requires x <= y
    ensures |x| <= |y|
  {
    assert y == x + (y - x);
  }

  lemma {:induction false} DroppedHandle(a: Snapshot, loc: Loc)
    ensures Shrinks(a, Snapshot(a.metas, a.handles - {loc}, a.taken), {loc})
  {
  }

  /** Handing out an object and then destroying its members removes the object with its handles. */
  lemma {:induction false} TakeThenDestroy(a: Snapshot, b: Snapshot, s: SlotId, o: Obj)
    requires s < |a.metas| && a.metas[s] == Some(o) && o !in a.taken
    requires Shrinks(Snapshot(a.metas[s := None], a.handles, a.taken + [o]), b, MembersOf(a.handles, o))
    ensures Shrinks(a, b, {})
  {
    var m := Snapshot(a.metas[s := None], a.handles, a.taken + [o]);
    assert o in m.taken && o in b.taken;
    forall i | |a.taken| <= i < |b.taken|
      ensures Some(b.taken[i]) in a.metas
    {
      if i == |a.taken| {
        assert b.taken[i] == m.taken[i] == o;
      } else {
        var t :| 0 <= t < |m.metas| && m.metas[t] == Some(b.taken[i]);
        assert a.metas[t] == Some(b.taken[i]);
      }
    }
  }

  function MembersOf(handles: Handles, o: Obj): set<Loc> {
    set l | l in handles && l.Member? && l.obj == o
  }

  // --- Survivors are exactly what stays -----------------------------------------------------------

  /** Between operations, each object of the store is under construction or named by a handle of another one or outside. */
  lemma {:induction false} HeldSupported(
    metas: seq<Option<Obj>>, refcounts: seq<nat>, free: seq<SlotId>, liveSlotCount: nat,
    handles: Handles, reserved: set<SlotId>, taken: seq<Obj>)
    requires |metas| == |refcounts| && CountsOk(refcounts, handles)
    requires SlotsOk(refcounts, free, reserved, {}, liveSlotCount)
    requires ObjectsOk(metas, free, reserved, handles, {}, taken)
    ensures Supported(metas, handles, reserved, HeldObjects(metas))
  {
    forall o | o in HeldObjects(metas)
      ensures HasSupport(metas, handles, reserved, HeldObjects(metas), o)
    {
      var s :| 0 <= s < |metas| && metas[s] == Some(o);
      if s !in reserved {
        var l := CountedHasHandle(refcounts, handles, s);
        assert Holds(metas, handles, l, o);
      }
    }
  }

  lemma {:induction false} SupportedEarlier(a: Snapshot, b: Snapshot, gone: set<Loc>, reserved: set<SlotId>, keep: set<Obj>)
    requires Shrinks(a, b, gone) && Supported(b.metas, b.handles, reserved, keep)
    ensures Supported(a.metas, a.handles - gone, reserved, keep)
  {
    forall o | o in keep
      ensures HasSupport(a.metas, a.handles - gone, reserved, keep, o)
    {
      assert HasSupport(b.metas, b.handles, reserved, keep, o);
      if Constructing(b.metas, reserved, o) {
        var s :| 0 <= s < |b.metas| && s in reserved && b.metas[s] == Some(o);
        assert a.metas[s] == Some(o);
      } else {
        var l :| Holds(b.metas, b.handles, l, o) && (l.External? || l.obj in keep);
        assert Holds(a.metas, a.handles - gone, l, o);
      }
    }
  }

  /** The handles that are left when `loc` is dropped. */
  function Remaining(handles: Handles, loc: Loc, survivors: set<Obj>): Handles {
    map l | l in handles && l != loc && (l.External? || l.obj in survivors) :: handles[l]
  }

  function Kept(metas: seq<Option<Obj>>, survivors: set<Obj>): seq<Option<Obj>> {
    seq(|metas|, i requires 0 <= i < |metas| => if metas[i].Some? && metas[i].value in survivors then metas[i] else None)
  }

  lemma {:induction false} StillHeld(a: Snapshot, b: Snapshot, gone: set<Loc>, o: Obj)
    requires Shrinks(a, b, gone) && Some(o) in a.metas
    requires forall o: Obj :: Some(o) in a.metas ==> o !in a.taken
    requires forall o: Obj :: Some(o) in b.metas ==> o !in b.taken
    ensures Some(o) in b.metas <==> !Newly(a, b, o)
  {
    var s :| 0 <= s < |a.metas| && a.metas[s] == Some(o);
    if o !in b.taken {
      assert b.metas[s] == Some(o);
    }
  }

  lemma {:induction false} ExactlySurvivorsStay(a: Snapshot, b: Snapshot, loc: Loc, reserved: set<SlotId>)
    requires Shrinks(a, b, {loc})
    requires Supported(b.metas, b.handles, reserved, Survivors(a.metas, a.handles - {loc}, reserved))
    requires Supported(b.metas, b.handles, reserved, HeldObjects(b.metas))
    ensures HeldObjects(b.metas) == Survivors(a.metas, a.handles - {loc}, reserved)
  {
    var v := Survivors(a.metas, a.handles - {loc}, reserved);
    SupportedEarlier(a, b, {loc}, reserved, HeldObjects(b.metas));
    forall o | o in HeldObjects(b.metas)
      ensures o in v
    {
      SupportedAreHeld(a.metas, a.handles - {loc}, reserved, HeldObjects(b.metas), o);
    }
    forall o | o in v
      ensures o in HeldObjects(b.metas)
    {
      SupportedAreHeld(b.metas, b.handles, reserved, v, o);
    }
  }

  lemma {:induction false} ReleaseResult(a: Snapshot, b: Snapshot, loc: Loc, survivors: set<Obj>)
    requires Shrinks(a, b, {loc}) && HeldObjects(b.metas) == survivors
    requires forall o: Obj :: Some(o) in a.metas ==> o !in a.taken
    requires forall o: Obj :: Some(o) in b.metas ==> o !in b.taken
    requires forall l: Loc :: l in a.handles && l.Member? ==> Some(l.obj) in a.metas
    ensures b.metas == Kept(a.metas, survivors) && b.handles == Remaining(a.handles, loc, survivors)
  {
    forall l | l in a.handles && l.Member?
      ensures l.obj in survivors <==> !Newly(a, b, l.obj)
    {
      StillHeld(a, b, {loc}, l.obj);
    }
    forall s | 0 <= s < |a.metas|
      ensures b.metas[s] == Kept(a.metas, survivors)[s]
    {
      if a.metas[s].Some? && b.metas[s] == None {
        assert a.metas[s].value in b.taken;
        assert Some(a.metas[s].value) !in b.metas;
      }
    }
  }

  // --- The store ----------------------------------------------------------------------------

  class PrototypeStore {
    const maxSlots: Option<nat>
    var metas: seq<Option<Obj>>
    var refcounts: seq<nat>
    var generations: seq<nat>
    var free: seq<SlotId>
    var liveSlotCount: nat
    var alive: bool
    var deleted: bool
    var handles: Handles
    /** Slots of beans under construction. */
    ghost var reserved: set<SlotId>
    /** Slots whose last handle is being released. */
    ghost var closing: set<SlotId>
    /** Objects whose destruction has begun and not ended. */
    ghost var dying: set<Obj>
    /** Every object handed out for destruction, in order. */
    ghost var taken: seq<Obj>

    ghost predicate Valid()
      reads this
    {
      && |metas| == |refcounts| == |generations|
      && CountsOk(refcounts, handles)
      && SlotsOk(refcounts, free, reserved, closing, liveSlotCount)
      && ObjectsOk(metas, free, reserved, handles, dying, taken)
      && (!alive ==> forall s :: 0 <= s < |metas| ==> metas[s] == None)
      && (deleted <==> !alive && liveSlotCount == 0)
    }

    ghost function Snap(): Snapshot
      reads this
    {
      Snapshot(metas, handles, taken)
    }

    /** What nested destruction leaves alone. */
    twostate predicate SameWork()
      reads this
    {
      reserved == old(reserved) && closing == old(closing) && dying == old(dying) && alive == old(alive)
    }

    constructor (maxSlots: Option<nat>)
      ensures Valid() && alive && !deleted && handles == map[] && metas == [] && taken == [] && free == []
      ensures this.maxSlots == maxSlots
      ensures reserved == {} && closing == {} && dying == {}
    {
      this.maxSlots := maxSlots;
      metas, refcounts, generations, free, liveSlotCount := [], [], [], [], 0;
      alive, deleted, handles := true, false, map[];
      reserved, closing, dying, taken := {}, {}, {}, [];
    }

    /** Phase 1: a slot for a bean under construction, recycled or new. */
    method Allocate(mem: Obj) returns (r: AllocationResult)
      requires Valid() && alive && Some(mem) !in metas && mem !in taken
      modifies this`metas, this`refcounts, this`generations, this`free, this`reserved
      ensures Valid()
      ensures r.SlotLimitReached? <==> old(free) == [] && maxSlots.Some? && |old(metas)| >= maxSlots.value
      ensures r.SlotLimitReached? ==> unchanged(this)
      ensures generations == if r.Slot? && old(free) == [] then old(generations) + [0] else old(generations)
      ensures r.Slot? ==>
        && r.id !in old(reserved) && reserved == old(reserved) + {r.id}
        && free == (if old(free) != [] then old(free)[1..] else [])
        && if old(free) != [] then r.id == old(free)[0] && r.id < |old(metas)| && metas == old(metas)[r.id := Some(mem)]
           else r.id == |old(metas)| && metas == old(metas) + [Some(mem)]
    {
      if free != [] {
        r := Slot(free[0]);
        Recycle(mem);
        return;
      }
      if maxSlots.Some? && |metas| >= maxSlots.value {
        return SlotLimitReached;
      }
      r := Slot(|metas|);
      AddSlot(mem);
    }

    method Recycle(mem: Obj)
      requires Valid() && alive && free != [] && Some(mem) !in metas && mem !in taken
      modifies this`metas, this`free, this`reserved
      ensures Valid() && free == old(free)[1..] && old(free)[0] < |old(metas)|
      ensures metas == old(metas)[old(free)[0] := Some(mem)]
      ensures old(free)[0] !in old(reserved) && reserved == old(reserved) + {old(free)[0]}
    {
      var id := free[0];
      ReserveFreeSlot(refcounts, free, reserved, closing, liveSlotCount);
      ReuseSlot(metas, free, reserved, handles, dying, taken, mem);
      free := free[1..];
      metas := metas[id := Some(mem)];
      reserved := reserved + {id};
    }

    method AddSlot(mem: Obj)
      requires Valid() && alive && Some(mem) !in metas && mem !in taken
      modifies this`metas, this`refcounts, this`generations, this`reserved
      ensures Valid() && metas == old(metas) + [Some(mem)] && generations == old(generations) + [0]
      ensures |old(metas)| !in old(reserved) && reserved == old(reserved) + {|old(metas)|}
    {
      ghost var id := |metas|;
      ReserveNewSlot(refcounts, free, reserved, closing, liveSlotCount);
      assert Naming(handles, id) == {};
      AppendSlot(metas, free, reserved, handles, dying, taken, mem);
      metas, refcounts, generations := metas + [Some(mem)], refcounts + [0], generations + [0];
      reserved := reserved + {id};
    }

    /** The bean is constructed; its first handle is kept at `loc`. */
    method Activate(id: SlotId, loc: Loc)
      requires Valid() && alive && id in reserved && loc !in handles
      requires loc.Member? ==> Some(loc.obj) in metas
      modifies this`refcounts, this`liveSlotCount, this`handles, this`reserved
      ensures Valid() && reserved == old(reserved) - {id}
      ensures handles == old(handles)[loc := id] && refcounts == old(refcounts)[id := 1]
    {
      AddHandle(refcounts, handles, loc, id);
      ActivateSlot(refcounts, free, reserved, closing, liveSlotCount, id);
      refcounts := refcounts[id := 1];
      liveSlotCount := liveSlotCount + 1;
      handles := handles[loc := id];
      reserved := reserved - {id};
    }

    /** The constructor threw; its members are gone already. The slot keeps its generation. */
    method Reclaim(id: SlotId)
      requires Valid() && alive && id in reserved
      requires forall l: Loc :: l in handles && l.Member? ==> Some(l.obj) != metas[id]
      modifies this`metas, this`free, this`reserved
      ensures Valid() && reserved == old(reserved) - {id}
      ensures free == [id] + old(free) && metas == old(metas)[id := None]
    {
      UnreserveSlot(refcounts, free, reserved, closing, liveSlotCount, id);
      HeldExcept(metas, id);
      metas := metas[id := None];
      free := [id] + free;
      reserved := reserved - {id};
    }

    /** A copied handle is retained. */
    method Retain(slot: SlotId, loc: Loc)
      requires Valid() && slot < |refcounts| && refcounts[slot] > 0 && loc !in handles
      requires loc.Member? ==> Some(loc.obj) in metas
      modifies this`refcounts, this`handles
      ensures Valid() && handles == old(handles)[loc := slot]
    {
      AddHandle(refcounts, handles, loc, slot);
      RecountSlot(refcounts, free, reserved, closing, liveSlotCount, slot, refcounts[slot] + 1);
      refcounts := refcounts[slot := refcounts[slot] + 1];
      handles := handles[loc := slot];
    }

    /** Phase 1 of a release: the handle is uncounted; `last` tells that no other handle names the slot. */
    method ReleaseAcquire(loc: Loc) returns (last: bool)
      requires Valid() && !deleted && loc in handles
      modifies this`refcounts, this`handles, this`closing
      ensures Valid() && handles == old(handles) - {loc}
      ensures last <==> forall l :: l in handles ==> handles[l] != old(handles)[loc]
      ensures closing == old(closing) + (if last then {old(handles)[loc]} else {})
      ensures old(handles)[loc] !in old(closing) && old(handles)[loc] !in reserved
    {
      var slot := handles[loc];
      UncountSlot(refcounts, handles, free, reserved, closing, liveSlotCount, loc);
      refcounts := refcounts[slot := refcounts[slot] - 1];
      handles := handles - {loc};
      last := refcounts[slot] == 0;
      if last {
        closing := closing + {slot};
      }
    }

    /** Hands out the object of the slot, if it has not been handed out before. */
    method TakeSlotMetaForDestruction(slot: SlotId) returns (mem: Option<Obj>)
      requires Valid() && slot !in reserved
      modifies this`metas, this`taken, this`dying
      ensures Valid()
      ensures mem == if slot < |old(metas)| then old(metas)[slot] else None
      ensures metas == if slot < |old(metas)| then old(metas)[slot := None] else old(metas)
      ensures mem.Some? ==> mem.value !in old(taken)
      ensures taken == old(taken) + (if mem.Some? then [mem.value] else [])
      ensures dying == old(dying) + (if mem.Some? then {mem.value} else {})
    {
      if slot >= |metas| {
        return None;
      }
      mem := metas[slot];
      HeldExcept(metas, slot);
      if mem.Some? {
        assert Some(mem.value) in metas;
        taken := taken + [mem.value];
        dying := dying + {mem.value};
      }
      metas := metas[slot := None];
    }

    /** Phase 2 of the last release: the slot becomes free under a new generation. */
    method ReclaimSlot(slot: SlotId)
      requires Valid() && !deleted && slot in closing && metas[slot] == None
      modifies this`metas, this`generations, this`free, this`liveSlotCount, this`closing, this`deleted
      ensures Valid() && closing == old(closing) - {slot} && metas == old(metas)
      ensures free == [slot] + old(free) && generations == old(generations)[slot := old(generations)[slot] + 1]
      ensures liveSlotCount == old(liveSlotCount) - 1
    {
      FreeClosedSlot(refcounts, free, reserved, closing, liveSlotCount, slot);
      FreeSlot(slot);
      if liveSlotCount == 0 {
        TryDeleteIfUnused();
      }
    }

    method FreeSlot(slot: SlotId)
      requires slot < |metas| && metas[slot] == None && slot < |generations| && liveSlotCount > 0
      modifies this`metas, this`generations, this`free, this`liveSlotCount, this`closing
      ensures closing == old(closing) - {slot} && metas == old(metas)
      ensures free == [slot] + old(free) && generations == old(generations)[slot := old(generations)[slot] + 1]
      ensures liveSlotCount == old(liveSlotCount) - 1
    {
      metas := metas[slot := None];
      generations := generations[slot := generations[slot] + 1];
      free := [slot] + free;
      closing := closing - {slot};
      liveSlotCount := liveSlotCount - 1;
    }

    method TryDeleteIfUnused()
      modifies this`deleted
      ensures deleted == (old(deleted) || (liveSlotCount == 0 && !alive))
    {
      if liveSlotCount != 0 || alive {
        return;
      }
      deleted := true;
    }

    /**
     Drops the handle. When it was the last one, the object is destroyed, and
     with it, recursively, every object whose last handle it owned. The objects
     `keep`, which support each other without this handle, are untouched.
     */
    method ReleaseIfPrototype(loc: Loc, ghost keep: set<Obj>)
      requires Valid() && !deleted && loc in handles
      requires Supported(metas, handles - {loc}, reserved, keep)
      modifies this
      ensures Valid() && SameWork()
      ensures Shrinks(old(Snap()), Snap(), {loc})
      ensures Supported(metas, handles, reserved, keep)
      decreases |handles|, 0
    {
      ghost var start := Snap();
      var slot := handles[loc];
      var last := Uncount(loc);
      if last {
        ReleaseLast(slot, start, loc, keep);
      }
    }

    method Uncount(loc: Loc) returns (last: bool)
      requires Valid() && !deleted && loc in handles
      modifies this`refcounts, this`handles, this`closing
      ensures Valid() && handles == old(handles) - {loc} && |handles| < |old(handles)|
      ensures Shrinks(old(Snap()), Snap(), {loc})
      ensures last ==> old(handles)[loc] in closing && closing - {old(handles)[loc]} == old(closing)
      ensures last ==> forall l :: l in handles ==> handles[l] != old(handles)[loc]
      ensures !last ==> closing == old(closing)
    {
      DroppedHandle(Snap(), loc);
      last := ReleaseAcquire(loc);
      assert handles.Keys == old(handles).Keys - {loc};
    }

    method ReleaseLast(slot: SlotId, ghost start: Snapshot, ghost loc: Loc, ghost keep: set<Obj>)
      requires Valid() && !deleted && slot in closing && Shrinks(start, Snap(), {loc})
      requires forall l :: l in handles ==> handles[l] != slot
      requires Supported(metas, handles, reserved, keep)
      modifies this
      ensures Valid()
      ensures closing == old(closing) - {slot}
      ensures reserved == old(reserved) && dying == old(dying) && alive == old(alive)
      ensures Shrinks(start, Snap(), {loc})
      ensures Supported(metas, handles, reserved, keep)
      decreases |handles|, 7
    {
      ghost var dropped := Snap();
      FinishRelease(slot, keep);
      ShrinksFurther(start, dropped, Snap(), {loc});
    }

    /** What the releaser of the last handle does: with a dead registry the object is gone already. */
    method FinishRelease(slot: SlotId, ghost keep: set<Obj>)
      requires Valid() && !deleted && slot in closing
      requires forall l :: l in handles ==> handles[l] != slot
      requires Supported(metas, handles, reserved, keep)
      modifies this
      ensures Valid()
      ensures closing == old(closing) - {slot}
      ensures reserved == old(reserved) && dying == old(dying) && alive == old(alive)
      ensures Shrinks(old(Snap()), Snap(), {})
      ensures Supported(metas, handles, reserved, keep)
      decreases |handles|, 6
    {
      if alive {
        NotKept(slot, keep);
        ReleasePrototypeLast(slot, keep);
      } else {
        ReclaimSlot(slot);
      }
    }

    ghost method NotKept(slot: SlotId, keep: set<Obj>)
      requires Valid() && slot in closing && Supported(metas, handles, reserved, keep)
      requires forall l :: l in handles ==> handles[l] != slot
      ensures metas[slot].Some? ==> metas[slot].value !in keep
    {
      if metas[slot].Some? && metas[slot].value in keep {
        KeptIsNamed(metas, handles, reserved, keep, slot);
      }
    }

    method ReleasePrototypeLast(slot: SlotId, ghost keep: set<Obj>)
      requires Valid() && alive && slot in closing
      requires metas[slot].Some? ==> metas[slot].value !in keep
      requires Supported(metas, handles, reserved, keep)
      modifies this
      ensures Valid()
      ensures closing == old(closing) - {slot}
      ensures reserved == old(reserved) && dying == old(dying) && alive
      ensures Shrinks(old(Snap()), Snap(), {})
      ensures Supported(metas, handles, reserved, keep)
      decreases |handles|, 5
    {
      DestroyAt(slot, keep);
      ReclaimSlot(slot);
    }

    /** Takes the object of the slot and destroys it, unless that has happened before. */
    method DestroyAt(slot: SlotId, ghost keep: set<Obj>)
      requires Valid() && alive && slot !in reserved && slot < |metas|
      requires metas[slot].Some? ==> metas[slot].value !in keep
      requires Supported(metas, handles, reserved, keep)
      modifies this
      ensures Valid() && SameWork() && slot < |metas| && metas[slot] == None
      ensures Shrinks(old(Snap()), Snap(), {})
      ensures Supported(metas, handles, reserved, keep)
      decreases |handles|, 4
    {
      ghost var start, were := Snap(), dying;
      assert metas[slot].Some? ==> Some(metas[slot].value) in metas;
      var mem := TakeSlotMetaForDestruction(slot);
      FinishDestruction(slot, mem, start, were, keep);
    }

    method FinishDestruction(slot: SlotId, mem: Option<Obj>, ghost start: Snapshot, ghost were: set<Obj>, ghost keep: set<Obj>)
      requires Valid() && alive
      requires slot < |start.metas| && start.metas[slot] == mem
      requires mem.Some? ==> mem.value !in start.taken && mem.value !in were && mem.value !in keep
      requires metas == start.metas[slot := None] && handles == start.handles
      requires taken == start.taken + (if mem.Some? then [mem.value] else [])
      requires dying == were + (if mem.Some? then {mem.value} else {})
      requires Supported(start.metas, handles, reserved, keep)
      modifies this
      ensures Valid()
      ensures dying == were && alive
      ensures reserved == old(reserved) && closing == old(closing)
      ensures |metas| == |start.metas| && metas[slot] == None
      ensures Shrinks(start, Snap(), {})
      ensures Supported(metas, handles, reserved, keep)
      decreases |handles|, 3
    {
      ClearingOtherSlot(start.metas, handles, reserved, keep, slot);
      if mem.Some? {
        assert Snap() == Snapshot(start.metas[slot := None], start.handles, start.taken + [mem.value]);
        assert dying - {mem.value} == were;
        ExecuteDestruction(mem.value, keep);
        TakeThenDestroy(start, Snap(), slot, mem.value);
      } else {
        assert metas == start.metas && Snap() == start;
      }
    }

    /** The destructor of the object destroys its member handles, in some order. */
    method ExecuteDestruction(o: Obj, ghost keep: set<Obj>)
      requires Valid() && alive && o in dying && o !in keep
      requires Supported(metas, handles, reserved, keep)
      modifies this
      ensures Valid()
      ensures dying == old(dying) - {o} && alive
      ensures reserved == old(reserved) && closing == old(closing)
      ensures Shrinks(old(Snap()), Snap(), MembersOf(old(handles), o))
      ensures Supported(metas, handles, reserved, keep)
      decreases |handles|, 2
    {
      ghost var start := Snap();
      ghost var removed: set<Loc> := {};
      while exists l :: l in handles && l.Member? && l.obj == o
        invariant Valid() && SameWork()
        invariant removed <= MembersOf(start.handles, o)
        invariant Shrinks(start, Snap(), removed)
        invariant Supported(metas, handles, reserved, keep)
        decreases |handles|
      {
        var l :| l in handles && l.Member? && l.obj == o;
        ShrinksHandles(start, Snap(), removed);
        DestroyMember(l, start, removed, keep);
        removed := removed + {l};
      }
      dying := dying - {o};
    }

    method DestroyMember(l: Loc, ghost start: Snapshot, ghost removed: set<Loc>, ghost keep: set<Obj>)
      requires Valid() && alive && l in handles && l.Member? && l.obj !in keep
      requires Shrinks(start, Snap(), removed) && Supported(metas, handles, reserved, keep)
      modifies this
      ensures Valid() && SameWork()
      ensures Shrinks(start, Snap(), removed + {l}) && |handles| < |old(handles)|
      ensures l in start.handles && Supported(metas, handles, reserved, keep)
      decreases |handles|, 1
    {
      ghost var mid := Snap();
      UnkeptMemberSupportsNothing(metas, handles, reserved, keep, l);
      ReleaseIfPrototype(l, keep);
      ShrinksTransitively(start, mid, Snap(), removed, {l});
      assert l in mid.handles && l !in handles;
      KeysBound(handles.Keys, mid.handles.Keys - {l});
    }

    // --- Handles of the application ------------------------------------------------------------

    /** No release is under way. */
    ghost predicate Quiet()
      reads this
    {
      closing == {} && dying == {}
    }

    ghost predicate Placed(l: Loc)
      reads this
    {
      l.Member? ==> Some(l.obj) in metas
    }

    /** The objects that stay when the handle at `loc` is dropped. */
    ghost function StayingWithout(loc: Loc): set<Obj>
      reads this
    {
      if loc in handles then Survivors(metas, handles - {loc}, reserved) else HeldObjects(metas)
    }

    ghost method AllSupported()
      requires Valid() && Quiet()
      ensures Supported(metas, handles, reserved, HeldObjects(metas))
    {
      HeldSupported(metas, refcounts, free, liveSlotCount, handles, reserved, taken);
    }

    ghost method Members()
      requires Valid() && Quiet()
      ensures forall l: Loc :: l in handles && l.Member? ==> Some(l.obj) in metas && l.obj in HeldObjects(metas)
    {
    }

    /** Destroys exactly the objects that nothing supports without this handle. */
    method Drop(loc: Loc)
      requires Valid() && Quiet() && !deleted && loc in handles
      modifies this
      ensures Valid() && SameWork()
      ensures metas == Kept(old(metas), old(StayingWithout(loc)))
      ensures handles == Remaining(old(handles), loc, old(StayingWithout(loc)))
      ensures HeldObjects(metas) == old(StayingWithout(loc))
    {
      ghost var start := Snap();
      ghost var survivors := Survivors(metas, handles - {loc}, reserved);
      SurvivorsSupported(metas, handles - {loc}, reserved);
      Members();
      ReleaseIfPrototype(loc, survivors);
      AllSupported();
      ExactlySurvivorsStay(start, Snap(), loc, reserved);
      ReleaseResult(start, Snap(), loc, survivors);
    }

    /** The destructor of a handle. */
    method DestroyHandle(loc: Loc)
      requires Valid() && Quiet() && !deleted
      modifies this
      ensures Valid() && Quiet()
      ensures metas == Kept(old(metas), old(StayingWithout(loc)))
      ensures handles == Remaining(old(handles), loc, old(StayingWithout(loc)))
    {
      if loc in handles {
        Drop(loc);
      } else {
        Members();
      }
    }

    /** Copying, and a successful cast, retain the slot the source names. */
    method CopyConstruct(dst: Loc, src: Loc)
      requires Valid() && Placed(src) && Placed(dst) && dst !in handles
      modifies this`refcounts, this`handles
      ensures Valid()
      ensures handles == if src in old(handles) then old(handles)[dst := old(handles)[src]] else old(handles)
    {
      if src in handles {
        UncountedHasNoHandle(refcounts, handles, src);
        Retain(handles[src], dst);
      }
    }

    /** Moving leaves the source empty and counts nothing. */
    method MoveConstruct(dst: Loc, src: Loc)
      requires Valid() && Placed(src) && Placed(dst) && dst !in handles && src != dst
      modifies this`handles
      ensures Valid()
      ensures handles == if src in old(handles) then (old(handles) - {src})[dst := old(handles)[src]] else old(handles)
    {
      if src in handles {
        RenameHandle(refcounts, handles, src, dst);
        handles := (handles - {src})[dst := handles[src]];
      }
    }

    /**
     The target releases its bean before the source is read. `intact` tells
     whether source and target still exist then; if not, the original reads or
     writes a handle inside a destroyed object.
     */
    method CopyAssign(dst: Loc, src: Loc) returns (intact: bool)
      requires Valid() && Quiet() && !deleted && Placed(src) && Placed(dst)
      modifies this
      ensures Valid() && Quiet()
      ensures dst == src ==> intact && handles == old(handles) && metas == old(metas)
      ensures dst != src ==>
        var v := old(StayingWithout(dst));
        var rest := Remaining(old(handles), dst, v);
        && (intact <==> (src.Member? ==> src.obj in v) && (dst.Member? ==> dst.obj in v))
        && metas == Kept(old(metas), v)
        && (intact ==> handles == if src in old(handles) then rest[dst := old(handles)[src]] else rest)
    {
      if dst == src {
        return true;
      }
      intact := Vacate(dst, src);
      if intact {
        CopyConstruct(dst, src);
      }
    }

    method MoveAssign(dst: Loc, src: Loc) returns (intact: bool)
      requires Valid() && Quiet() && !deleted && Placed(src) && Placed(dst)
      modifies this
      ensures Valid() && Quiet()
      ensures dst == src ==> intact && handles == old(handles) && metas == old(metas)
      ensures dst != src ==>
        var v := old(StayingWithout(dst));
        var rest := Remaining(old(handles), dst, v);
        && (intact <==> (src.Member? ==> src.obj in v) && (dst.Member? ==> dst.obj in v))
        && metas == Kept(old(metas), v)
        && (intact ==> handles == if src in old(handles) then (rest - {src})[dst := old(handles)[src]] else rest)
    {
      if dst == src {
        return true;
      }
      intact := Vacate(dst, src);
      if intact {
        MoveConstruct(dst, src);
      }
    }

    /** The first half of an assignment: the target gives up its bean. */
    method Vacate(dst: Loc, src: Loc) returns (intact: bool)
      requires Valid() && Quiet() && !deleted && Placed(src) && Placed(dst) && dst != src
      modifies this
      ensures Valid() && Quiet()
      ensures metas == Kept(old(metas), old(StayingWithout(dst)))
      ensures handles == Remaining(old(handles), dst, old(StayingWithout(dst)))
      ensures intact <==> Placed(src) && Placed(dst)
      ensures intact <==>
        (src.Member? ==> src.obj in old(StayingWithout(dst))) && (dst.Member? ==> dst.obj in old(StayingWithout(dst)))
    {
      if dst in handles {
        Drop(dst);
      } else {
        Members();
        assert metas == Kept(metas, HeldObjects(metas));
      }
      HeldIsListed(metas);
      intact := (src.External? || Some(src.obj) in metas) && (dst.External? || Some(dst.obj) in metas);
    }

    /** A prototype is resolved without a failure: the new object is named by the handle at `loc`. */
    method Materialize(mem: Obj, loc: Loc) returns (r: AllocationResult)
      requires Valid() && Quiet() && alive && Placed(loc) && loc !in handles && Some(mem) !in metas && mem !in taken
      modifies this
      ensures Valid() && SameWork() && taken == old(taken)
      ensures r.SlotLimitReached? <==> old(free) == [] && maxSlots.Some? && |old(metas)| >= maxSlots.value
      ensures r.SlotLimitReached? ==> metas == old(metas) && handles == old(handles) && free == old(free)
      ensures r.Slot? ==>
        && handles == old(handles)[loc := r.id]
        && free == (if old(free) != [] then old(free)[1..] else [])
        && if old(free) != [] then r.id == old(free)[0] && r.id < |old(metas)| && metas == old(metas)[r.id := Some(mem)]
           else r.id == |old(metas)| && metas == old(metas) + [Some(mem)]
    {
      ghost var listed, were := metas, reserved;
      r := Allocate(mem);
      if r.Slot? {
        assert reserved - {r.id} == were;
        PlacedStill(listed, metas, loc);
        Activate(r.id, loc);
      }
    }

    // --- The end of the registry -----------------------------------------------------------------

    /**
     The stop-time sweep over the slots, highest first: afterwards every object
     has been handed out exactly once, and exactly the handles outside
     prototype objects remain. An object goes before one of a higher slot only
     if no handle outside prototype objects names it; without handles inside
     objects the order is strictly that of descending slots.
     */
    method StopSweep()
      requires Valid() && Quiet() && alive && reserved == {}
      modifies this
      ensures Valid() && SameWork()
      ensures forall s :: 0 <= s < |metas| ==> metas[s] == None
      ensures handles == map l | l in old(handles) && l.External? :: old(handles)[l]
      ensures old(taken) <= taken && forall o :: o in taken <==> o in old(taken) || Some(o) in old(metas)
      ensures InOrder(old(Snap()), Snap())
      ensures (forall l: Loc :: l in old(handles) ==> l.External?) ==> Descending(old(Snap()), Snap())
    {
      ghost var start := Snap();
      var s := |metas|;
      AllNamed();
      assert Shrinks(start, Snap(), {});
      while s > 0
        invariant 0 <= s <= |metas| == |start.metas|
        invariant Valid() && SameWork()
        invariant Shrinks(start, Snap(), {})
        invariant forall t :: s <= t < |metas| ==> metas[t] == None
        invariant UntouchedBelow(start, Snap(), s) && InOrder(start, Snap())
      {
        SweepSlot(s - 1, start);
        s := s - 1;
      }
      SweptAll(start, Snap());
      if forall l: Loc :: l in start.handles ==> l.External? {
        ExternalOrder(start, Snap());
      }
    }

    method SweepSlot(s: SlotId, ghost start: Snapshot)
      requires Valid() && alive && reserved == {} && s < |metas| == |start.metas| && Distinct(start)
      requires forall t :: s < t < |metas| ==> metas[t] == None
      requires Shrinks(start, Snap(), {}) && UntouchedBelow(start, Snap(), s + 1) && InOrder(start, Snap())
      modifies this
      ensures Valid() && SameWork() && |metas| == |start.metas|
      ensures forall t :: s <= t < |metas| ==> metas[t] == None
      ensures Shrinks(start, Snap(), {}) && UntouchedBelow(start, Snap(), s) && InOrder(start, Snap())
    {
      ghost var mid := Snap();
      KeptSupported(start, mid, s);
      DestroyAt(s, KeptBelow(start, s));
      ShrinksFurther(start, mid, Snap(), {});
      StillUntouched(start, Snap(), s);
      OrderStep(start, mid, Snap(), s);
    }

    /** Between operations every object is named by a handle. */
    ghost method AllNamed()
      requires Valid() && Quiet() && reserved == {}
      ensures Distinct(Snap()) && EachNamed(Snap())
    {
      forall s | 0 <= s < |metas| && metas[s].Some?
        ensures Named(handles, s)
      {
        var l := CountedHasHandle(refcounts, handles, s);
      }
    }

    /** Called after the sweep, when the registry is destroyed. */
    method MarkRegistryDeadAndReleaseHold()
      requires Valid() && Quiet() && alive && reserved == {}
      requires forall s :: 0 <= s < |metas| ==> metas[s] == None
      modifies this`alive, this`deleted
      ensures Valid() && Quiet() && !alive
      ensures deleted <==> handles == map[]
    {
      DeletedIffUnused(refcounts, handles, free, reserved, liveSlotCount);
      alive := false;
      TryDeleteIfUnused();
    }
  }

  lemma {:induction false} PlacedStill(metas: seq<Option<Obj>>, more: seq<Option<Obj>>, l: Loc)
    requires l.Member? ==> Some(l.obj) in metas
    requires |metas| <= |more| && forall s :: 0 <= s < |metas| && metas[s].Some? ==> more[s] == metas[s]
    ensures l.Member? ==> Some(l.obj) in more
  {
    if l.Member? {
      var s :| 0 <= s < |metas| && metas[s] == Some(l.obj);
      assert more[s] == Some(l.obj);
    }
  }

  lemma {:induction false} HeldIsListed(metas: seq<Option<Obj>>)
    ensures forall o: Obj :: o in HeldObjects(metas) <==> Some(o) in metas
  {
  }

  ghost predicate Distinct(a: Snapshot) {
    forall s, t :: 0 <= s < |a.metas| && 0 <= t < |a.metas| && a.metas[s].Some? && a.metas[s] == a.metas[t] ==> s == t
  }

  ghost predicate Named(handles: Handles, s: SlotId) {
    exists l :: l in handles && handles[l] == s
  }

  ghost predicate EachNamed(a: Snapshot) {
    forall s: SlotId :: s < |a.metas| && a.metas[s].Some? ==> Named(a.handles, s)
  }

  /** A handle outside prototype objects names the slot. */
  ghost predicate HeldOutside(handles: Handles, s: SlotId) {
    exists l: Loc :: l in handles && handles[l] == s && l.External?
  }

  predicate At(a: Snapshot, s: SlotId, o: Obj) {
    s < |a.metas| && a.metas[s] == Some(o)
  }

  /** Of the objects handed out since `a`, one goes before another of a higher slot only if it is not held outside. */
  ghost predicate InOrder(a: Snapshot, b: Snapshot) {
    forall i, j, s: SlotId, t: SlotId ::
      |a.taken| <= i < j < |b.taken| && At(a, s, b.taken[i]) && At(a, t, b.taken[j]) && s < t ==> !HeldOutside(a.handles, s)
  }

  /** The objects handed out since `a` are in strictly descending order of their slots. */
  ghost predicate Descending(a: Snapshot, b: Snapshot) {
    forall i, j, s: SlotId, t: SlotId ::
      |a.taken| <= i < j < |b.taken| && At(a, s, b.taken[i]) && At(a, t, b.taken[j]) ==> s > t
  }

  /** Slots below n that are held outside are as they were. */
  ghost predicate UntouchedBelow(a: Snapshot, b: Snapshot, n: nat) {
    |b.metas| == |a.metas| && forall s: SlotId :: s < n && s < |a.metas| && HeldOutside(a.handles, s) ==> b.metas[s] == a.metas[s]
  }

  ghost function KeptBelow(a: Snapshot, n: nat): set<Obj> {
    set s: SlotId | 0 <= s < |a.metas| && s < n && a.metas[s].Some? && HeldOutside(a.handles, s) :: a.metas[s].value
  }

  lemma {:induction false} KeptSupported(a: Snapshot, b: Snapshot, n: SlotId)
    requires Shrinks(a, b, {}) && UntouchedBelow(a, b, n) && Distinct(a)
    ensures Supported(b.metas, b.handles, {}, KeptBelow(a, n))
    ensures n < |b.metas| && b.metas[n].Some? ==> b.metas[n].value !in KeptBelow(a, n)
  {
    forall o | o in KeptBelow(a, n)
      ensures HasSupport(b.metas, b.handles, {}, KeptBelow(a, n), o)
    {
      var s: SlotId :| s < |a.metas| && s < n && a.metas[s] == Some(o) && HeldOutside(a.handles, s);
      var l: Loc :| l in a.handles && a.handles[l] == s && l.External?;
      assert Holds(b.metas, b.handles, l, o);
    }
  }

  lemma {:induction false} StillUntouched(a: Snapshot, b: Snapshot, n: nat)
    requires Shrinks(a, b, {}) && Distinct(a) && Supported(b.metas, b.handles, {}, KeptBelow(a, n))
    ensures UntouchedBelow(a, b, n)
  {
    forall s: SlotId | s < n && s < |a.metas| && HeldOutside(a.handles, s)
      ensures b.metas[s] == a.metas[s]
    {
      if a.metas[s].Some? {
        var o := a.metas[s].value;
        assert o in KeptBelow(a, n);
        SupportedAreHeld(b.metas, b.handles, {}, KeptBelow(a, n), o);
        var t :| 0 <= t < |b.metas| && b.metas[t] == Some(o);
        assert t == s;
      }
    }
  }

  lemma {:induction false} NotHandedOut(a: Snapshot, b: Snapshot, n: nat)
    requires UntouchedBelow(a, b, n) && forall x: Obj :: Some(x) in b.metas ==> x !in b.taken
    ensures forall s: SlotId, o: Obj :: s < n && HeldOutside(a.handles, s) && At(a, s, o) ==> o !in b.taken
  {
    forall s: SlotId, o: Obj | s < n && HeldOutside(a.handles, s) && At(a, s, o)
      ensures o !in b.taken
    {
      assert b.metas[s] == Some(o);
    }
  }

  /** What the sweep of slot n hands out comes from slots up to n, and not from those held outside below n. */
  lemma {:induction false} OrderStep(a: Snapshot, mid: Snapshot, b: Snapshot, n: SlotId)
    requires Shrinks(a, mid, {}) && Shrinks(mid, b, {}) && Distinct(a) && InOrder(a, mid)
    requires forall t :: n < t < |mid.metas| ==> mid.metas[t] == None
    requires UntouchedBelow(a, b, n) && forall o: Obj :: Some(o) in b.metas ==> o !in b.taken
    ensures InOrder(a, b)
  {
    NotHandedOut(a, b, n);
    forall i, j, s: SlotId, t: SlotId |
      |a.taken| <= i < j < |b.taken| && At(a, s, b.taken[i]) && At(a, t, b.taken[j]) && s < t
      ensures !HeldOutside(a.handles, s)
    {
      if j < |mid.taken| {
        assert b.taken[i] == mid.taken[i] && b.taken[j] == mid.taken[j];
        assert At(a, s, mid.taken[i]) && At(a, t, mid.taken[j]);
      } else {
        var v :| 0 <= v < |mid.metas| && mid.metas[v] == Some(b.taken[j]);
        assert v == t;
      }
    }
  }

  lemma {:induction false} ExternalOrder(a: Snapshot, b: Snapshot)
    requires InOrder(a, b) && EachNamed(a) && NoDuplicates(b.taken)
    requires forall l: Loc :: l in a.handles ==> l.External?
    ensures Descending(a, b)
  {
    forall i, j, s: SlotId, t: SlotId |
      |a.taken| <= i < j < |b.taken| && At(a, s, b.taken[i]) && At(a, t, b.taken[j])
      ensures s > t
    {
      assert Named(a.handles, s);
      var l :| l in a.handles && a.handles[l] == s;
      assert HeldOutside(a.handles, s);
    }
  }

  lemma {:induction false} SweptAll(a: Snapshot, b: Snapshot)
    requires Shrinks(a, b, {}) && forall s :: 0 <= s < |b.metas| ==> b.metas[s] == None
    requires forall o: Obj :: Some(o) in a.metas ==> o !in a.taken
    requires forall l: Loc :: l in a.handles && l.Member? ==> Some(l.obj) in a.metas
    ensures b.handles == map l | l in a.handles && l.External? :: a.handles[l]
    ensures forall o :: o in b.taken <==> o in a.taken || Some(o) in a.metas
  {
    forall o: Obj | Some(o) in a.metas
      ensures Newly(a, b, o)
    {
      var s :| 0 <= s < |a.metas| && a.metas[s] == Some(o);
      assert b.metas[s] == None;
    }
  }

  /** No slot counts as live exactly when no handle is left. */
  lemma {:induction false} DeletedIffUnused(
    refcounts: seq<nat>, handles: Handles, free: seq<SlotId>, reserved: set<SlotId>, liveSlotCount: nat)
    requires CountsOk(refcounts, handles) && SlotsOk(refcounts, free, reserved, {}, liveSlotCount)
    ensures liveSlotCount == 0 <==> handles == map[]
  {
    if l :| l in handles {
      UncountedHasNoHandle(refcounts, handles, l);
      assert handles[l] in Busy(refcounts, {});
    } else {
      assert handles == map[];
      forall s | 0 <= s < |refcounts|
        ensures refcounts[s] == 0
      {
        assert Naming(handles, s) == {};
      }
      assert Busy(refcounts, {}) == {};
    }
  }

  /** A slot that can be handed out again is named by no handle and holds no object. */
  lemma {:induction false} FreeSlotIsUnnamed(store: PrototypeStore, s: SlotId, l: Loc)
    requires store.Valid() && s in store.free && l in store.handles
    ensures store.handles[l] != s && store.metas[s] == None && store.refcounts[s] == 0
  {
    UncountedHasNoHandle(store.refcounts, store.handles, l);
  }

  // --- Acyclic ownership ---------------------------------------------------------------------

  /** A chain of handles that starts outside, or in a bean under construction, and ends at the object. */
  ghost predicate Chain(metas: seq<Option<Obj>>, handles: Handles, reserved: set<SlotId>, p: seq<Obj>) {
    && p != []
    && (Constructing(metas, reserved, p[0]) || exists l :: Holds(metas, handles, l, p[0]) && l.External?)
    && forall i :: 0 < i < |p| ==> exists l: Loc :: Holds(metas, handles, l, p[i]) && l.Member? && l.obj == p[i - 1]
  }

  ghost predicate Reachable(metas: seq<Option<Obj>>, handles: Handles, reserved: set<SlotId>, o: Obj) {
    exists p :: Chain(metas, handles, reserved, p) && p[|p| - 1] == o
  }

  /** Owners have a higher rank than what they own. */
  ghost predicate Acyclic(metas: seq<Option<Obj>>, handles: Handles, rank: map<Obj, nat>, bound: nat) {
    && (forall o: Obj :: Some(o) in metas ==> o in rank && rank[o] < bound)
    && forall l, o :: Holds(metas, handles, l, o) && l.Member? && l.obj in rank && o in rank ==> rank[l.obj] > rank[o]
  }

  lemma {:induction false} ChainExtends(
    metas: seq<Option<Obj>>, handles: Handles, reserved: set<SlotId>, l: Loc, o: Obj)
    requires Holds(metas, handles, l, o) && l.Member? && Reachable(metas, handles, reserved, l.obj)
    ensures Reachable(metas, handles, reserved, o)
  {
    var p :| Chain(metas, handles, reserved, p) && p[|p| - 1] == l.obj;
    var q := p + [o];
    forall i | 0 < i < |q|
      ensures exists m: Loc :: Holds(metas, handles, m, q[i]) && m.Member? && m.obj == q[i - 1]
    {
      if i < |p| {
        assert q[i] == p[i] && q[i - 1] == p[i - 1];
      } else {
        assert Holds(metas, handles, l, q[i]) && l.obj == q[i - 1];
      }
    }
    assert Chain(metas, handles, reserved, q) && q[|q| - 1] == o;
  }

  lemma {:induction false} SupportedIsReachable(
    metas: seq<Option<Obj>>, handles: Handles, reserved: set<SlotId>, keep: set<Obj>, o: Obj,
    rank: map<Obj, nat>, bound: nat)
    requires Supported(metas, handles, reserved, keep) && o in keep && Acyclic(metas, handles, rank, bound)
    requires o in rank
    ensures Reachable(metas, handles, reserved, o)
    decreases bound - rank[o]
  {
    SupportedAreHeld(metas, handles, reserved, keep, o);
    assert HasSupport(metas, handles, reserved, keep, o);
    if l :| Holds(metas, handles, l, o) && l.Member? && l.obj in keep {
      SupportedAreHeld(metas, handles, reserved, keep, l.obj);
      SupportedIsReachable(metas, handles, reserved, keep, l.obj, rank, bound);
      ChainExtends(metas, handles, reserved, l, o);
    } else {
      assert Chain(metas, handles, reserved, [o]);
    }
  }

  lemma {:induction false} ChainSupports(metas: seq<Option<Obj>>, handles: Handles, reserved: set<SlotId>, p: seq<Obj>)
    requires Chain(metas, handles, reserved, p)
    ensures Supported(metas, handles, reserved, set i | 0 <= i < |p| :: p[i])
  {
    var keep := set i | 0 <= i < |p| :: p[i];
    forall o | o in keep
      ensures HasSupport(metas, handles, reserved, keep, o)
    {
      var i :| 0 <= i < |p| && p[i] == o;
      if i > 0 {
        var l: Loc :| Holds(metas, handles, l, p[i]) && l.Member? && l.obj == p[i - 1];
        assert l.obj in keep;
      }
    }
  }

  /** With acyclic ownership, what survives is exactly what a chain of handles from outside reaches. */
  lemma {:induction false} SurvivesIffReachable(
    metas: seq<Option<Obj>>, handles: Handles, reserved: set<SlotId>, o: Obj, rank: map<Obj, nat>, bound: nat)
    requires Acyclic(metas, handles, rank, bound)
    ensures o in Survivors(metas, handles, reserved) <==> Reachable(metas, handles, reserved, o)
  {
    if o in Survivors(metas, handles, reserved) {
      var keep: set<Obj> :| o in keep && Supported(metas, handles, reserved, keep);
      SupportedAreHeld(metas, handles, reserved, keep, o);
      SupportedIsReachable(metas, handles, reserved, keep, o, rank, bound);
    }
    if Reachable(metas, handles, reserved, o) {
      var p :| Chain(metas, handles, reserved, p) && p[|p| - 1] == o;
      var keep := set i | 0 <= i < |p| :: p[i];
      ChainSupports(metas, handles, reserved, p);
      SupportedAreHeld(metas, handles, reserved, keep, o);
    }
  }

  /** With acyclic ownership no object is leaked: the objects of the store are those reachable from outside. */
  lemma {:induction false} HeldIffReachable(store: PrototypeStore, o: Obj, rank: map<Obj, nat>, bound: nat)
    requires store.Valid() && store.Quiet() && Acyclic(store.metas, store.handles, rank, bound)
    ensures Some(o) in store.metas <==> Reachable(store.metas, store.handles, store.reserved, o)
  {
    HeldSupported(
      store.metas, store.refcounts, store.free, store.liveSlotCount, store.handles, store.reserved, store.taken);
    HeldIsListed(store.metas);
    SurvivesIffReachable(store.metas, store.handles, store.reserved, o, rank, bound);
  }

  // --- Assigning from inside the released object ------------------------------------------------

  /** An object with a single handle does not survive its loss. */
  lemma {:induction false} SoleHandleLost(
    metas: seq<Option<Obj>>, handles: Handles, reserved: set<SlotId>, loc: Loc, o: Obj)
    requires !Constructing(metas, reserved, o)
    requires forall l :: Holds(metas, handles, l, o) ==> l == loc
    ensures o !in Survivors(metas, handles - {loc}, reserved)
  {
    if keep: set<Obj> :| o in keep && Supported(metas, handles - {loc}, reserved, keep) {
      assert HasSupport(metas, handles - {loc}, reserved, keep, o);
      var l :| Holds(metas, handles - {loc}, l, o) && (l.External? || l.obj in keep);
      assert Holds(metas, handles, l, o);
    }
  }

  /** A list node that owns the next one: object 10 holds the handle to object 11. */
  method TwoNodeList(head: Loc, next: Loc) returns (store: PrototypeStore)
    requires head == External(0) && next == Member(10, 0)
    ensures fresh(store) && store.Valid() && store.Quiet() && !store.deleted && store.reserved == {}
    ensures store.metas == [Some(10), Some(11)] && store.handles == map[head := 0, next := 1]
  {
    store := new PrototypeStore(None);
    var first := store.Materialize(10, head);
    assert store.metas == [Some(10)];
    var second := store.Materialize(11, next);
  }

  /**
   Advancing a list through its only head handle, `head = head->next`: the head
   object is destroyed before its member is read.
   */
  method AdvanceThroughHead() returns (intact: bool)
    ensures !intact
  {
    var head, next := External(0), Member(10, 0);
    var store := TwoNodeList(head, next);
    assert store.metas[0] == Some(10);
    SoleHandleLost(store.metas, store.handles, store.reserved, head, 10);
    intact := store.MoveAssign(head, next);
  }
}
