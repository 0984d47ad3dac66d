/**
 A scope and its session store: what becomes of every session instance, and
 of the memory it lives in, over start, materialize, bind, restart and stop.
 */
module SessionScope {
  import opened Common

  type Desc = nat
  /** One instance; never the same for two instances, even at the same address. */
  type Inst = nat
  type Addr = nat

  datatype Holding = Holding(desc: Desc, inst: Inst)

  datatype Outcome = Done(inst: Inst) | NotStarted | TearingDown | NotBound | AlreadyBound | ConstructorThrew

  // --- Bookkeeping --------------------------------------------------------------------------

  predicate Holds(v: seq<Holding>, i: Inst) {
    exists k :: 0 <= k < |v| && v[k].inst == i
  }

  /** At most one instance per descriptor. */
  predicate OnePerDesc(v: seq<Holding>) {
    forall i, j :: 0 <= i < j < |v| ==> v[i].desc != v[j].desc && v[i].inst != v[j].inst
  }

  predicate HasDesc(v: seq<Holding>, d: Desc) {
    exists k :: 0 <= k < |v| && v[k].desc == d
  }

  function Append(v: seq<Holding>, d: Desc, i: Inst): seq<Holding> {
    v + [Holding(d, i)]
  }

  /** The walk from position `k` on: a block of the descriptor is overwritten with the last one, which is dropped. */
  function Emptied(v: seq<Holding>, d: Desc, k: nat): seq<Holding>
    requires k <= |v|
    decreases |v| - k
  {
    if k == |v| then v
    else if v[k].desc == d then Emptied(Overwritten(v, k), d, k)
    else Emptied(v, d, k + 1)
  }

  function Overwritten(v: seq<Holding>, k: nat): (w: seq<Holding>)
    requires k < |v|
    ensures |w| == |v| - 1
  {
    v[k := v[|v| - 1]][..|v| - 1]
  }

  /** The instances whose blocks the walk frees, in the order it meets them. */
  function FreedOf(v: seq<Holding>, d: Desc, k: nat): seq<Inst>
    requires k <= |v|
    decreases |v| - k
  {
    if k == |v| then []
    else if v[k].desc == d then [v[k].inst] + FreedOf(Overwritten(v, k), d, k)
    else FreedOf(v, d, k + 1)
  }

  /**
   Where every instance that ever entered the scope is: queued, live, retired
   (destroyed, its memory kept) or freed. Exactly one of these; destroyed are
   exactly the retired and the freed ones.
   */
  datatype Books = Books(
    pending: seq<Holding>,
    live: seq<Holding>,
    retired: seq<Holding>,
    entered: set<Inst>,
    destroyed: seq<Inst>,
    freed: seq<Inst>,
    address: map<Inst, Addr>)

  predicate InUse(b: Books, i: Inst) {
    i in b.entered && i !in b.freed
  }

  function AddressOf(b: Books, i: Inst): Addr {
    if i in b.address then b.address[i] else 0
  }

  ghost predicate Balanced(b: Books) {
    && OnePerDesc(b.pending) && OnePerDesc(b.live) && OnePerDesc(b.retired)
    && NoDuplicates(b.destroyed) && NoDuplicates(b.freed)
    && (forall i :: i in b.entered <==> Holds(b.pending, i) || Holds(b.live, i) || Holds(b.retired, i) || i in b.freed)
    && (forall i :: Holds(b.pending, i) ==> !Holds(b.live, i))
    && (forall i :: i in b.destroyed <==> Holds(b.retired, i) || i in b.freed)
    && (forall i :: Holds(b.pending, i) || Holds(b.live, i) ==> i !in b.destroyed)
    && (forall i :: Holds(b.retired, i) ==> i !in b.freed)
  }

  /** Memory that has not been freed is not handed out again. */
  ghost predicate Addressed(b: Books) {
    forall i, j :: InUse(b, i) && InUse(b, j) && i != j ==> AddressOf(b, i) != AddressOf(b, j)
  }

  /** A descriptor with a live instance has no retired memory left. */
  ghost predicate Replaced(b: Books) {
    forall d :: HasDesc(b.live, d) ==> !HasDesc(b.retired, d)
  }

  ghost predicate BooksOk(b: Books) {
    Balanced(b) && Addressed(b) && Replaced(b)
  }

  ghost predicate FreshMemory(b: Books, i: Inst, a: Addr) {
    i !in b.entered && forall j :: InUse(b, j) ==> AddressOf(b, j) != a
  }

  function Enter(b: Books, i: Inst, a: Addr): Books {
    b.(entered := b.entered + {i}, address := b.address[i := a])
  }

  /** A new instance is live and what its descriptor had retired is freed. */
  function Stored(b: Books, d: Desc, i: Inst, a: Addr): Books {
    Released(Enter(b, i, a).(live := Append(b.live, d, i)), d)
  }

  function Released(b: Books, d: Desc): Books {
    b.(retired := Emptied(b.retired, d, 0), freed := b.freed + FreedOf(b.retired, d, 0))
  }

  lemma {:induction false} OverwrittenMembers(v: seq<Holding>, k: nat)
    requires k < |v| && OnePerDesc(v)
    ensures OnePerDesc(Overwritten(v, k))
    ensures forall x :: x in Overwritten(v, k) <==> x in v && x != v[k]
  {
    var w, n := Overwritten(v, k), |v| - 1;
    assert forall i :: 0 <= i < n ==> w[i] == v[if i == k then n else i];
    forall x | x in v && x != v[k]
      ensures x in w
    {
      var i :| 0 <= i < |v| && v[i] == x;
      assert w[if i == n then k else i] == x;
    }
  }

  /** What is kept, and what is freed. */
  lemma {:induction false} EmptiedMembers(v: seq<Holding>, d: Desc, k: nat)
    requires OnePerDesc(v) && k <= |v| && forall i :: 0 <= i < k ==> v[i].desc != d
    ensures OnePerDesc(Emptied(v, d, k)) && NoDuplicates(FreedOf(v, d, k))
    ensures forall x :: x in Emptied(v, d, k) <==> x in v && x.desc != d
    ensures forall i :: i in FreedOf(v, d, k) <==> Holding(d, i) in v
    decreases |v| - k
  {
    if k < |v| {
      if v[k].desc == d {
        var w := Overwritten(v, k);
        OverwrittenMembers(v, k);
        EmptiedMembers(w, d, k);
        FreedHead(v[k].inst, FreedOf(w, d, k), w, d);
      } else {
        EmptiedMembers(v, d, k + 1);
      }
    }
  }

  lemma {:induction false} FreedHead(i: Inst, freed: seq<Inst>, w: seq<Holding>, d: Desc)
    requires NoDuplicates(freed) && forall j :: j in freed <==> Holding(d, j) in w
    requires Holding(d, i) !in w
    ensures NoDuplicates([i] + freed)
  {
    forall k | 0 <= k < |freed|
      ensures freed[k] != i
    {
      assert freed[k] in freed;
    }
  }

  lemma {:induction false} AppendHolds(v: seq<Holding>, d: Desc, i: Inst)
    ensures forall j :: Holds(Append(v, d, i), j) <==> Holds(v, j) || j == i
    ensures forall e :: HasDesc(Append(v, d, i), e) <==> HasDesc(v, e) || e == d
    ensures OnePerDesc(v) && !HasDesc(v, d) && !Holds(v, i) ==> OnePerDesc(Append(v, d, i))
  {
    var w := Append(v, d, i);
    assert w[|v|] == Holding(d, i);
    forall j | Holds(v, j)
      ensures Holds(w, j)
    {
      var k :| 0 <= k < |v| && v[k].inst == j;
      assert w[k].inst == j;
    }
    forall e | HasDesc(v, e)
      ensures HasDesc(w, e)
    {
      var k :| 0 <= k < |v| && v[k].desc == e;
      assert w[k].desc == e;
    }
  }

  lemma {:induction false} EmptiedHolds(v: seq<Holding>, d: Desc)
    requires OnePerDesc(v)
    ensures var w, freed := Emptied(v, d, 0), FreedOf(v, d, 0);
      && OnePerDesc(w) && NoDuplicates(freed) && !HasDesc(w, d)
      && (forall i :: Holds(v, i) <==> Holds(w, i) || i in freed)
      && (forall i :: Holds(w, i) ==> i !in freed)
      && (forall e :: HasDesc(w, e) ==> HasDesc(v, e))
  {
    EmptiedMembers(v, d, 0);
    var w, freed := Emptied(v, d, 0), FreedOf(v, d, 0);
    forall i
      ensures Holds(v, i) <==> Holds(w, i) || i in freed
      ensures Holds(w, i) ==> i !in freed
    {
      if Holds(v, i) {
        var k :| 0 <= k < |v| && v[k].inst == i;
        assert v[k] in v;
        if v[k].desc != d {
          assert v[k] in w;
        }
      }
      if Holds(w, i) {
        var k :| 0 <= k < |w| && w[k].inst == i;
        assert w[k] in w;
      }
      if i in freed {
        assert Holding(d, i) in v;
      }
    }
    forall e | HasDesc(w, e)
      ensures HasDesc(v, e) && e != d
    {
      var k :| 0 <= k < |w| && w[k].desc == e;
      assert w[k] in w;
    }
  }

  lemma {:induction false} FewerInUse(b: Books, b': Books)
    requires Addressed(b) && b'.entered == b.entered && b'.address == b.address
    requires forall i :: i in b.freed ==> i in b'.freed
    ensures Addressed(b')
  {
    forall i, j | InUse(b', i) && InUse(b', j) && i != j
      ensures AddressOf(b', i) != AddressOf(b', j)
    {
      assert InUse(b, i) && InUse(b, j);
    }
  }

  lemma {:induction false} ConcatDistinct(v: seq<nat>, w: seq<nat>)
    requires NoDuplicates(v) && NoDuplicates(w) && forall i :: i in w ==> i !in v
    ensures NoDuplicates(v + w)
  {
    forall i, j | 0 <= i < j < |v + w|
      ensures (v + w)[i] != (v + w)[j]
    {
      if i < |v| <= j {
        assert w[j - |v|] in w && v[i] in v;
      }
    }
  }

  /** Freeing the retired memory of one descriptor. */
  lemma {:induction false} ReleasedOk(b: Books, d: Desc)
    requires Balanced(b) && Addressed(b) && forall e :: HasDesc(b.live, e) && e != d ==> !HasDesc(b.retired, e)
    ensures BooksOk(Released(b, d))
  {
    EmptiedHolds(b.retired, d);
    FewerInUse(b, Released(b, d));
    ConcatDistinct(b.freed, FreedOf(b.retired, d, 0));
  }

  lemma {:induction false} EnterOk(b: Books, d: Desc, i: Inst, a: Addr)
    requires BooksOk(b) && FreshMemory(b, i, a)
    ensures !HasDesc(b.pending, d) ==> BooksOk(Enter(b, i, a).(pending := Append(b.pending, d, i)))
    ensures !HasDesc(b.live, d) ==> Balanced(Enter(b, i, a).(live := Append(b.live, d, i)))
    ensures Addressed(Enter(b, i, a))
  {
    AppendHolds(b.pending, d, i);
    AppendHolds(b.live, d, i);
    NotHeld(b, i);
    var e := Enter(b, i, a);
    forall j, k | InUse(e, j) && InUse(e, k) && j != k
      ensures AddressOf(e, j) != AddressOf(e, k)
    {
      assert j != i ==> InUse(b, j);
      assert k != i ==> InUse(b, k);
    }
    FewerInUse(e, e.(pending := Append(b.pending, d, i)));
  }

  lemma {:induction false} NotHeld(b: Books, i: Inst)
    requires Balanced(b) && i !in b.entered
    ensures !Holds(b.pending, i) && !Holds(b.live, i) && !Holds(b.retired, i) && i !in b.freed && i !in b.destroyed
  {
  }

  lemma {:induction false} StoredOk(b: Books, d: Desc, i: Inst, a: Addr)
    requires BooksOk(b) && FreshMemory(b, i, a) && !HasDesc(b.live, d)
    ensures BooksOk(Stored(b, d, i, a))
  {
    EnterOk(b, d, i, a);
    AppendHolds(b.live, d, i);
    FewerInUse(Enter(b, i, a), Enter(b, i, a).(live := Append(b.live, d, i)));
    ReleasedOk(Enter(b, i, a).(live := Append(b.live, d, i)), d);
  }

  /** The memory the previous instance of the descriptor left retired is not the memory of its replacement. */
  lemma {:induction false} ReplacementElsewhere(b: Books, d: Desc, i: Inst, a: Addr, former: Inst)
    requires BooksOk(b) && FreshMemory(b, i, a) && Holding(d, former) in b.retired
    ensures AddressOf(Stored(b, d, i, a), i) == a != AddressOf(b, former)
    ensures former in Stored(b, d, i, a).freed && former !in b.freed
  {
    assert Holds(b.retired, former);
    assert InUse(b, former);
    EmptiedMembers(b.retired, d, 0);
  }

  /** Storing an instance leaves the retired blocks of other descriptors as they are. */
  lemma {:induction false} StoredKeepsOthers(b: Books, d: Desc, i: Inst, a: Addr, x: Holding)
    requires BooksOk(b) && FreshMemory(b, i, a) && x in b.retired && x.desc != d
    ensures x in Stored(b, d, i, a).retired && x.inst !in Stored(b, d, i, a).freed
    ensures AddressOf(Stored(b, d, i, a), x.inst) == AddressOf(b, x.inst)
  {
    EmptiedMembers(b.retired, d, 0);
    assert Holds(b.retired, x.inst);
    if Holding(d, x.inst) in b.retired {
      OneHolding(b.retired, x, Holding(d, x.inst));
    }
  }

  lemma {:induction false} OneHolding(v: seq<Holding>, x: Holding, y: Holding)
    requires OnePerDesc(v) && x in v && y in v && x.inst == y.inst
    ensures x == y
  {
    var k :| 0 <= k < |v| && v[k] == x;
    var l :| 0 <= l < |v| && v[l] == y;
    assert k == l;
  }

  /** The retired blocks after instances of the queued descriptors have been stored: those of other descriptors. */
  ghost predicate KeepsOthers(was: seq<Holding>, stored: seq<Holding>, retired: seq<Holding>) {
    forall x: Holding :: x in retired <==> x in was && !HasDesc(stored, x.desc)
  }

  /** What was freed meanwhile: exactly the retired blocks of those descriptors. */
  ghost predicate FreesReplaced(was: seq<Holding>, stored: seq<Holding>, before: seq<Inst>, freed: seq<Inst>) {
    forall i :: i in freed <==> i in before || exists d: Desc :: HasDesc(stored, d) && Holding(d, i) in was
  }

  /** The instance is the last live one, at its address, and of the retired blocks exactly its descriptor's are freed. */
  ghost predicate NewlyLive(was: Books, b: Books, d: Desc, i: Inst, a: Addr) {
    && b.live == was.live + [Holding(d, i)] && b.entered == was.entered + {i} && b.address == was.address[i := a]
    && b.pending == was.pending && b.destroyed == was.destroyed
    && (forall x: Holding :: x in b.retired <==> x in was.retired && x.desc != d)
    && (forall j :: j in b.freed <==> j in was.freed || Holding(d, j) in was.retired)
  }

  lemma {:induction false} StoredIsLive(b: Books, d: Desc, i: Inst, a: Addr)
    requires BooksOk(b)
    ensures NewlyLive(b, Stored(b, d, i, a), d, i, a)
  {
    EmptiedMembers(b.retired, d, 0);
  }

  /** The first queued instance becomes live when the scope starts. */
  function Unqueued(b: Books): Books
    requires b.pending != []
  {
    var h := b.pending[0];
    Released(b.(pending := b.pending[1..], live := Append(b.live, h.desc, h.inst)), h.desc)
  }

  lemma {:induction false} UnqueuedOk(b: Books)
    requires BooksOk(b) && b.pending != [] && !HasDesc(b.live, b.pending[0].desc)
    ensures BooksOk(Unqueued(b))
    ensures forall d :: HasDesc(Unqueued(b).pending, d) ==> HasDesc(b.pending, d) && d != b.pending[0].desc
  {
    var h, rest := b.pending[0], b.pending[1..];
    AppendHolds(b.live, h.desc, h.inst);
    assert Holds(b.pending, h.inst);
    forall i
      ensures Holds(b.pending, i) <==> Holds(rest, i) || i == h.inst
      ensures Holds(rest, i) ==> i != h.inst
    {
      if Holds(b.pending, i) && i != h.inst {
        var k :| 0 <= k < |b.pending| && b.pending[k].inst == i;
        assert rest[k - 1].inst == i;
      }
      if Holds(rest, i) {
        var k :| 0 <= k < |rest| && rest[k].inst == i;
        assert b.pending[k + 1].inst == i;
      }
    }
    forall d | HasDesc(rest, d)
      ensures HasDesc(b.pending, d) && d != h.desc
    {
      var k :| 0 <= k < |rest| && rest[k].desc == d;
      assert b.pending[k + 1].desc == d;
    }
    FewerInUse(b, b.(pending := rest, live := Append(b.live, h.desc, h.inst)));
    ReleasedOk(b.(pending := rest, live := Append(b.live, h.desc, h.inst)), h.desc);
  }

  lemma {:induction false} UnqueuedRetired(b: Books, was: seq<Holding>, before: seq<Inst>)
    requires BooksOk(b) && b.pending != [] && KeepsOthers(was, b.live, b.retired)
    requires FreesReplaced(was, b.live, before, b.freed)
    ensures KeepsOthers(was, Unqueued(b).live, Unqueued(b).retired)
    ensures FreesReplaced(was, Unqueued(b).live, before, Unqueued(b).freed)
  {
    var h, u := b.pending[0], Unqueued(b);
    EmptiedMembers(b.retired, h.desc, 0);
    AppendHolds(b.live, h.desc, h.inst);
    forall i
      ensures i in u.freed <==> i in before || exists d: Desc :: HasDesc(u.live, d) && Holding(d, i) in was
    {
      if i in u.freed && i !in b.freed {
        assert Holding(h.desc, i) in was && HasDesc(u.live, h.desc);
      }
      if d: Desc :| HasDesc(u.live, d) && Holding(d, i) in was && !HasDesc(b.live, d) {
        assert Holding(d, i) in b.retired;
      }
    }
  }

  lemma {:induction false} UnqueuedLine(b: Books)
    requires b.pending != []
    ensures Unqueued(b).live + Unqueued(b).pending == b.live + b.pending
  {
    assert b.pending == [b.pending[0]] + b.pending[1..];
  }

  /** The sweep destroys the last live instance and keeps its memory, or frees it. */
  function Swept(b: Books, keep: bool): Books
    requires b.live != []
  {
    var h, n := b.live[|b.live| - 1], |b.live| - 1;
    var d := b.(live := b.live[..n], destroyed := b.destroyed + [h.inst]);
    if keep then d.(retired := Append(b.retired, h.desc, h.inst)) else d.(freed := b.freed + [h.inst])
  }

  lemma {:induction false} SweptOk(b: Books, keep: bool)
    requires BooksOk(b) && b.live != []
    ensures BooksOk(Swept(b, keep))
  {
    var n := |b.live| - 1;
    var h, rest := b.live[n], b.live[..n];
    assert Holds(b.live, h.inst) && HasDesc(b.live, h.desc);
    FewerInUse(b, Swept(b, keep));
    AppendHolds(b.retired, h.desc, h.inst);
    forall i
      ensures Holds(b.live, i) <==> Holds(rest, i) || i == h.inst
      ensures Holds(rest, i) ==> i != h.inst
    {
      if Holds(b.live, i) && i != h.inst {
        var k :| 0 <= k < |b.live| && b.live[k].inst == i;
        assert rest[k].inst == i;
      }
    }
    forall d | HasDesc(rest, d)
      ensures HasDesc(b.live, d) && d != h.desc
    {
      var k :| 0 <= k < |rest| && rest[k].desc == d;
      assert b.live[k].desc == d;
    }
  }

  /** The instances in reverse order. */
  /** Every block that was retired or live is one or the other, and none has been freed. */
  ghost predicate AllKept(was: Books, b: Books) {
    && b.freed == was.freed
    && forall x: Holding :: x in b.retired || x in b.live <==> x in was.retired || x in was.live
  }

  lemma {:induction false} SweptKeeps(was: Books, b: Books)
    requires b.live != [] && AllKept(was, b)
    ensures AllKept(was, Swept(b, true))
  {
    var n := |b.live| - 1;
    assert b.live == b.live[..n] + [b.live[n]];
  }

  /** The instances from the last to the first. */
  function BackwardsInsts(v: seq<Holding>): (r: seq<Inst>)
    ensures |r| == |v| && forall k :: 0 <= k < |v| ==> r[k] == v[|v| - 1 - k].inst
  {
    if v == [] then [] else [v[|v| - 1].inst] + BackwardsInsts(v[..|v| - 1])
  }

  lemma {:induction false} SweptLine(b: Books, keep: bool)
    requires b.live != []
    ensures Swept(b, keep).destroyed + BackwardsInsts(Swept(b, keep).live) == b.destroyed + BackwardsInsts(b.live)
  {
  }

  /** All retired memory is freed. */
  function AllReleased(b: Books): Books {
    b.(retired := [], freed := b.freed + Insts(b.retired))
  }

  function Insts(v: seq<Holding>): seq<Inst> {
    seq(|v|, k requires 0 <= k < |v| => v[k].inst)
  }

  lemma {:induction false} AllReleasedOk(b: Books)
    requires BooksOk(b)
    ensures BooksOk(AllReleased(b))
  {
    forall i
      ensures i in Insts(b.retired) <==> Holds(b.retired, i)
    {
      if Holds(b.retired, i) {
        var k :| 0 <= k < |b.retired| && b.retired[k].inst == i;
        assert Insts(b.retired)[k] == i;
      }
    }
    FewerInUse(b, AllReleased(b));
    ConcatDistinct(b.freed, Insts(b.retired));
  }

  /** When nothing is live or retired, everything that entered and is not queued was destroyed once and freed once. */
  lemma {:induction false} SettledWhenEmpty(b: Books, i: Inst)
    requires BooksOk(b) && b.live == [] && b.retired == [] && i in b.entered && !Holds(b.pending, i)
    ensures i in b.destroyed && i in b.freed && multiset(b.destroyed)[i] == 1 && multiset(b.freed)[i] == 1
  {
    OnceOnly(b.destroyed, i);
    OnceOnly(b.freed, i);
  }

  lemma {:induction false} OnceOnly(v: seq<nat>, i: nat)
    requires NoDuplicates(v)
    ensures multiset(v)[i] == if i in v then 1 else 0
  {
    if v != [] {
      var w := v[..|v| - 1];
      assert v == w + [v[|v| - 1]];
      OnceOnly(w, i);
    }
  }

  // --- The scope -----------------------------------------------------------------------------

  type Slot = nat

  function SlotOf(slotOf: map<Desc, Slot>, d: Desc): Slot {
    if d in slotOf then slotOf[d] else 0
  }

  function InstAt(slots: seq<Option<Inst>>, s: Slot): Inst {
    if s < |slots| && slots[s].Some? then slots[s].value else 0
  }

  function LiveOf(slots: seq<Option<Inst>>, order: seq<Desc>, slotOf: map<Desc, Slot>): seq<Holding> {
    seq(|order|, k requires 0 <= k < |order| => Holding(order[k], InstAt(slots, SlotOf(slotOf, order[k]))))
  }

  predicate Injective(slotOf: map<Desc, Slot>) {
    forall d, e :: d in slotOf && e in slotOf && slotOf[d] == slotOf[e] ==> d == e
  }

  /** The filled slots are those of the descriptors in the insertion order, each listed once. */
  ghost predicate StoreOk(slots: seq<Option<Inst>>, order: seq<Desc>, slotOf: map<Desc, Slot>) {
    && Injective(slotOf)
    && NoDuplicates(order)
    && (forall d :: d in order ==> d in slotOf && slotOf[d] < |slots| && slots[slotOf[d]].Some?)
    && (forall d :: d in slotOf && slotOf[d] < |slots| && slots[slotOf[d]].Some? ==> d in order)
  }

  lemma {:induction false} LiveHasDesc(slots: seq<Option<Inst>>, order: seq<Desc>, slotOf: map<Desc, Slot>, d: Desc)
    ensures HasDesc(LiveOf(slots, order, slotOf), d) <==> d in order
  {
    var v := LiveOf(slots, order, slotOf);
    if d in order {
      var k :| 0 <= k < |order| && order[k] == d;
      assert v[k].desc == d;
    }
  }

  lemma {:induction false} LiveAt(slots: seq<Option<Inst>>, order: seq<Desc>, slotOf: map<Desc, Slot>, d: Desc)
    requires d in order
    ensures Holding(d, InstAt(slots, SlotOf(slotOf, d))) in LiveOf(slots, order, slotOf)
  {
    var k :| 0 <= k < |order| && order[k] == d;
    assert LiveOf(slots, order, slotOf)[k] == Holding(d, InstAt(slots, SlotOf(slotOf, d)));
  }

  /** Filling the empty slot of a descriptor, in an array grown if needed. */
  lemma {:induction false} FillSlot(
    slots: seq<Option<Inst>>, more: seq<Option<Inst>>, order: seq<Desc>, slotOf: map<Desc, Slot>, d: Desc, i: Inst)
    requires StoreOk(slots, order, slotOf) && d in slotOf && d !in order
    requires |slots| <= |more| && slotOf[d] < |more|
    requires forall k :: 0 <= k < |more| ==> more[k] == if k < |slots| then slots[k] else None
    ensures StoreOk(more[slotOf[d] := Some(i)], order + [d], slotOf)
    ensures LiveOf(more[slotOf[d] := Some(i)], order + [d], slotOf) == Append(LiveOf(slots, order, slotOf), d, i)
  {
    var filled := more[slotOf[d] := Some(i)];
    forall k | 0 <= k < |order|
      ensures InstAt(filled, SlotOf(slotOf, order[k])) == InstAt(slots, SlotOf(slotOf, order[k]))
    {
      assert order[k] in order;
    }
    assert LiveOf(filled, order + [d], slotOf) == Append(LiveOf(slots, order, slotOf), d, i);
  }

  lemma {:induction false} ClearSlot(slots: seq<Option<Inst>>, order: seq<Desc>, slotOf: map<Desc, Slot>)
    requires StoreOk(slots, order, slotOf) && order != []
    ensures var n := |order| - 1;
      var s := SlotOf(slotOf, order[n]);
      && s < |slots| && slots[s].Some?
      && LiveOf(slots, order, slotOf)[n] == Holding(order[n], slots[s].value)
      && StoreOk(slots[s := None], order[..n], slotOf)
      && LiveOf(slots[s := None], order[..n], slotOf) == LiveOf(slots, order, slotOf)[..n]
  {
    var n := |order| - 1;
    assert order[n] in order;
    assert order == order[..n] + [order[n]];
    var s := slotOf[order[n]];
    var rest := slots[s := None];
    forall k | 0 <= k < n
      ensures InstAt(rest, SlotOf(slotOf, order[k])) == InstAt(slots, SlotOf(slotOf, order[k]))
    {
      assert order[k] in order;
    }
  }

  /** What is queued can be stored: slots for every descriptor, none of them filled. */
  /** A new descriptor with a number of its own. */
  lemma {:induction false} AnotherSlot(
    slots: seq<Option<Inst>>, order: seq<Desc>, slotOf: map<Desc, Slot>, d: Desc, slot: Slot)
    requires StoreOk(slots, order, slotOf) && d !in slotOf && slot >= |slots|
    requires forall e :: e in slotOf ==> slotOf[e] < slot
    ensures StoreOk(slots, order, slotOf[d := slot])
    ensures LiveOf(slots, order, slotOf[d := slot]) == LiveOf(slots, order, slotOf)
  {
    var more := slotOf[d := slot];
    forall k | 0 <= k < |order|
      ensures order[k] in slotOf && SlotOf(more, order[k]) == SlotOf(slotOf, order[k])
    {
      assert order[k] in order;
    }
  }

  ghost predicate QueueOk(pending: seq<Holding>, order: seq<Desc>, slotOf: map<Desc, Slot>, n: nat) {
    forall k :: 0 <= k < |pending| ==>
      pending[k].desc in slotOf && slotOf[pending[k].desc] < n && pending[k].desc !in order
  }

  lemma {:induction false} QueueTail(pending: seq<Holding>, order: seq<Desc>, slotOf: map<Desc, Slot>, n: nat)
    requires QueueOk(pending, order, slotOf, n) && OnePerDesc(pending) && pending != []
    ensures QueueOk(pending[1..], order + [pending[0].desc], slotOf, n)
  {
  }

  datatype ScopeState = Stopped | Running | Stopping

  class SessionScope {
    var scopeState: ScopeState
    var registryStarted: bool
    /** The registry's session descriptors; those below `startupSlots` exist since its start. */
    var slotOf: map<Desc, Slot>
    var bound: set<Desc>
    var slotCount: nat
    const startupSlots: nat
    /** The list of kept blocks can always grow; otherwise each push may fail, and that block is freed. */
    const canKeep: bool
    var pending: seq<Holding>
    var slots: seq<Option<Inst>>
    var insertionOrder: seq<Desc>
    var retired: seq<Holding>
    ghost var entered: set<Inst>
    ghost var destroyed: seq<Inst>
    ghost var freed: seq<Inst>
    ghost var address: map<Inst, Addr>
    /** The last stop was that of a restart which could not start again, with something live or retired before. */
    ghost var failedRestart: bool

    ghost function Account(): Books
      reads this
    {
      Books(pending, LiveOf(slots, insertionOrder, slotOf), retired, entered, destroyed, freed, address)
    }

    ghost predicate Valid()
      reads this
    {
      && BooksOk(Account())
      && StoreOk(slots, insertionOrder, slotOf)
      && startupSlots <= slotCount && |slots| <= slotCount
      && (forall d :: d in slotOf ==> slotOf[d] < slotCount && (d !in bound ==> slotOf[d] < startupSlots))
      && (forall k :: 0 <= k < |pending| ==> pending[k].desc in slotOf)
      && (scopeState.Stopped? ==> slots == [] && insertionOrder == [])
      && (scopeState.Running? ==> pending == [] && |slots| >= startupSlots)
      && (scopeState.Stopped? && retired != [] ==> failedRestart)
      && (scopeState.Stopped? && failedRestart && canKeep ==> retired != [])
    }

    constructor (slotOf: map<Desc, Slot>, bound: set<Desc>, slotCount: nat, canKeep: bool)
      requires Injective(slotOf) && forall d :: d in slotOf ==> slotOf[d] < slotCount
      ensures Valid() && scopeState == Stopped && registryStarted && this.canKeep == canKeep
      ensures pending == [] && retired == [] && entered == {} && this.slotOf == slotOf && this.bound == bound
    {
      this.canKeep := canKeep;
      failedRestart := false;
      scopeState, registryStarted := Stopped, true;
      this.slotOf, this.bound, this.slotCount, this.startupSlots := slotOf, bound, slotCount, slotCount;
      pending, slots, insertionOrder, retired := [], [], [], [];
      entered, destroyed, freed, address := {}, [], [], map[];
    }

    /** The registry stops, as the rollback of a failed start makes it do while scopes already run. */
    method RegistryStops()
      requires Valid()
      modifies this`registryStarted
      ensures Valid() && !registryStarted && Account() == old(Account())
    {
      registryStarted := false;
    }

    method RegistryStarts()
      requires Valid()
      modifies this`registryStarted
      ensures Valid() && registryStarted && Account() == old(Account())
    {
      registryStarted := true;
    }

    /** bindSession made a new descriptor after start. */
    method AddDescriptor(d: Desc)
      requires Valid() && d !in slotOf
      modifies this`slotOf, this`bound, this`slotCount
      ensures Valid() && slotOf == old(slotOf)[d := old(slotCount)] && bound == old(bound) + {d}
      ensures Account() == old(Account())
    {
      AnotherSlot(slots, insertionOrder, slotOf, d, slotCount);
      slotOf, bound, slotCount := slotOf[d := slotCount], bound + {d}, slotCount + 1;
    }

    /** Fills the slot, and only then frees what the descriptor had retired. */
    method Store(d: Desc, i: Inst)
      requires StoreOk(slots, insertionOrder, slotOf) && d in slotOf && d !in insertionOrder && slotOf[d] < |slots|
      modifies this`slots, this`insertionOrder, this`retired, this`freed
      ensures StoreOk(slots, insertionOrder, slotOf) && |slots| == |old(slots)|
      ensures insertionOrder == old(insertionOrder) + [d]
      ensures Account() == Released(old(Account()).(live := Append(old(Account()).live, d, i)), d)
    {
      FillSlot(slots, slots, insertionOrder, slotOf, d, i);
      insertionOrder := insertionOrder + [d];
      slots := slots[slotOf[d] := Some(i)];
      ReleaseRetired(d);
    }

    /** Frees the blocks of the descriptor; the last block closes each gap. */
    method ReleaseRetired(d: Desc)
      modifies this`retired, this`freed
      ensures retired == Emptied(old(retired), d, 0)
      ensures freed == old(freed) + FreedOf(old(retired), d, 0)
    {
      var k := 0;
      while k < |retired|
        invariant k <= |retired|
        invariant Emptied(retired, d, k) == Emptied(old(retired), d, 0)
        invariant freed + FreedOf(retired, d, k) == old(freed) + FreedOf(old(retired), d, 0)
        decreases |retired| - k
      {
        if retired[k].desc == d {
          ghost var rest := FreedOf(Overwritten(retired, k), d, k);
          assert freed + ([retired[k].inst] + rest) == freed + [retired[k].inst] + rest;
          freed := freed + [retired[k].inst];
          retired := retired[k := retired[|retired| - 1]];
          retired := retired[..|retired| - 1];
        } else {
          k := k + 1;
        }
      }
    }

    method GrowAndStore(d: Desc, i: Inst)
      requires StoreOk(slots, insertionOrder, slotOf) && d in slotOf && d !in insertionOrder
      modifies this`slots, this`insertionOrder, this`retired, this`freed
      ensures StoreOk(slots, insertionOrder, slotOf)
      ensures |slots| == if slotOf[d] + 1 > |old(slots)| then slotOf[d] + 1 else |old(slots)|
      ensures insertionOrder == old(insertionOrder) + [d]
      ensures Account() == Released(old(Account()).(live := Append(old(Account()).live, d, i)), d)
    {
      if slotOf[d] + 1 > |slots| {
        var more := slots + seq(slotOf[d] + 1 - |slots|, _ => None);
        Widened(slots, more, insertionOrder, slotOf);
        slots := more;
      }
      Store(d, i);
    }

    /** Resolves a session bean: the live instance, or a new one at the address the allocator gave. */
    method Materialize(d: Desc, i: Inst, a: Addr, throws: bool) returns (r: Outcome)
      requires Valid() && d in slotOf && FreshMemory(Account(), i, a)
      modifies this`slots, this`insertionOrder, this`retired, this`entered, this`freed, this`address
      ensures Valid()
      ensures r == NotStarted <==> scopeState.Stopped?
      ensures r == TearingDown <==> scopeState.Stopping? && !HasDesc(old(Account()).live, d)
      ensures r == NotBound <==> scopeState.Running? && d in bound && !HasDesc(old(Account()).live, d)
      ensures r == ConstructorThrew <==> scopeState.Running? && d !in bound && !HasDesc(old(Account()).live, d) && throws
      ensures r.Done? && HasDesc(old(Account()).live, d) ==> Account() == old(Account()) && Holding(d, r.inst) in Account().live
      ensures r.Done? && !HasDesc(old(Account()).live, d) ==> r.inst == i && Account() == Stored(old(Account()), d, i, a)
      ensures r.Done? && !HasDesc(old(Account()).live, d) ==> NewlyLive(old(Account()), Account(), d, i, a)
      ensures !r.Done? ==> Account() == old(Account()) && r != AlreadyBound
    {
      LiveHasDesc(slots, insertionOrder, slotOf, d);
      if scopeState.Stopped? {
        return NotStarted;
      }
      if slotOf[d] < |slots| && slots[slotOf[d]].Some? {
        LiveAt(slots, insertionOrder, slotOf, d);
        return Done(slots[slotOf[d]].value);
      }
      if scopeState.Stopping? {
        return TearingDown;
      }
      if d in bound {
        return NotBound;
      }
      if throws {
        return ConstructorThrew;
      }
      StoredIsLive(Account(), d, i, a);
      StoreBuilt(d, i, a);
      r := Done(i);
    }

    method StoreBuilt(d: Desc, i: Inst, a: Addr)
      requires Valid() && scopeState.Running? && d in slotOf && d !in bound && d !in insertionOrder
      requires FreshMemory(Account(), i, a)
      modifies this`slots, this`insertionOrder, this`retired, this`entered, this`freed, this`address
      ensures Valid() && Account() == Stored(old(Account()), d, i, a)
    {
      LiveHasDesc(slots, insertionOrder, slotOf, d);
      StoredOk(Account(), d, i, a);
      entered, address := entered + {i}, address[i := a];
      Store(d, i);
    }

    /** Binds an instance the caller built: queued for the next start, or stored at once. */
    method BindSession(d: Desc, i: Inst, a: Addr) returns (r: Outcome)
      requires Valid() && d in slotOf && d in bound && FreshMemory(Account(), i, a)
      modifies this`pending, this`slots, this`insertionOrder, this`retired, this`entered, this`freed, this`address
      ensures Valid()
      ensures r == AlreadyBound <==>
        HasDesc(old(Account()).pending, d) || (scopeState.Running? && HasDesc(old(Account()).live, d))
      ensures r == AlreadyBound ==> Account() == old(Account())
      ensures r != AlreadyBound ==> r == Done(i)
      ensures r == Done(i) && scopeState.Running? ==> Account() == Stored(old(Account()), d, i, a)
      ensures r == Done(i) && scopeState.Running? ==> NewlyLive(old(Account()), Account(), d, i, a)
      ensures r == Done(i) && !scopeState.Running? ==>
        Account() == Enter(old(Account()), i, a).(pending := Append(old(Account()).pending, d, i))
    {
      LiveHasDesc(slots, insertionOrder, slotOf, d);
      if exists k :: 0 <= k < |pending| && pending[k].desc == d {
        return AlreadyBound;
      }
      if !scopeState.Running? {
        Enqueue(d, i, a);
        return Done(i);
      }
      if slotOf[d] < |slots| && slots[slotOf[d]].Some? {
        return AlreadyBound;
      }
      StoredIsLive(Account(), d, i, a);
      StoreBound(d, i, a);
      r := Done(i);
    }

    method StoreBound(d: Desc, i: Inst, a: Addr)
      requires Valid() && scopeState.Running? && d in slotOf && d !in insertionOrder && FreshMemory(Account(), i, a)
      modifies this`slots, this`insertionOrder, this`retired, this`entered, this`freed, this`address
      ensures Valid() && Account() == Stored(old(Account()), d, i, a)
    {
      LiveHasDesc(slots, insertionOrder, slotOf, d);
      StoredOk(Account(), d, i, a);
      entered, address := entered + {i}, address[i := a];
      GrowAndStore(d, i);
    }

    method Enqueue(d: Desc, i: Inst, a: Addr)
      requires Valid() && !scopeState.Running? && d in slotOf && !HasDesc(pending, d) && FreshMemory(Account(), i, a)
      modifies this`pending, this`entered, this`address
      ensures Valid() && Account() == Enter(old(Account()), i, a).(pending := Append(old(Account()).pending, d, i))
    {
      EnterOk(Account(), d, i, a);
      pending := pending + [Holding(d, i)];
      entered, address := entered + {i}, address[i := a];
    }

    /** Stores the queued instances; fails while the registry is not started and while the scope is being stopped. */
    method Start() returns (ok: bool)
      requires Valid()
      modifies this`scopeState, this`pending, this`slots, this`insertionOrder, this`retired, this`freed, this`failedRestart
      ensures Valid()
      ensures ok <==> registryStarted && !old(scopeState).Stopping?
      ensures !ok || old(scopeState).Running? ==>
        Account() == old(Account()) && scopeState == old(scopeState) && failedRestart == old(failedRestart)
      ensures ok ==> scopeState.Running? && pending == []
      ensures ok && old(scopeState).Stopped? ==> Account().live == old(pending)
      ensures ok && old(scopeState).Stopped? ==> KeepsOthers(old(retired), old(pending), retired)
      ensures ok && old(scopeState).Stopped? ==> FreesReplaced(old(retired), old(pending), old(freed), freed)
    {
      if !registryStarted {
        return false;
      }
      if scopeState.Running? {
        return true;
      }
      if scopeState.Stopping? {
        return false;
      }
      OpenCycle();
      ok := true;
    }

    method OpenCycle()
      requires Valid() && scopeState.Stopped?
      modifies this`scopeState, this`pending, this`slots, this`insertionOrder, this`retired, this`freed, this`failedRestart
      ensures Valid() && scopeState.Running? && pending == [] && Account().live == old(pending)
      ensures KeepsOthers(old(retired), old(pending), retired)
      ensures FreesReplaced(old(retired), old(pending), old(freed), freed)
    {
      FillSlots();
      scopeState, failedRestart := Running, false;
    }

    method FillSlots()
      requires Valid() && scopeState.Stopped?
      modifies this`pending, this`slots, this`insertionOrder, this`retired, this`freed
      ensures BooksOk(Account()) && StoreOk(slots, insertionOrder, slotOf) && |slots| == slotCount
      ensures pending == [] && Account().live == old(pending)
      ensures KeepsOthers(old(retired), old(pending), retired)
      ensures FreesReplaced(old(retired), old(pending), old(freed), freed)
    {
      ResizeEmpty();
      StoreQueued();
    }

    /** A fresh array for the current cycle. */
    method ResizeEmpty()
      requires Valid() && insertionOrder == []
      modifies this`slots
      ensures BooksOk(Account()) && StoreOk(slots, insertionOrder, slotOf) && |slots| == slotCount
    {
      slots := seq(slotCount, _ => None);
      assert LiveOf(slots, insertionOrder, slotOf) == old(LiveOf(slots, insertionOrder, slotOf)) == [];
      assert Account() == old(Account());
    }

    method StoreQueued()
      requires BooksOk(Account()) && StoreOk(slots, insertionOrder, slotOf) && insertionOrder == []
      requires forall d :: d in slotOf ==> slotOf[d] < |slots|
      requires forall k :: 0 <= k < |pending| ==> pending[k].desc in slotOf
      modifies this`pending, this`slots, this`insertionOrder, this`retired, this`freed
      ensures BooksOk(Account()) && StoreOk(slots, insertionOrder, slotOf) && |slots| == |old(slots)|
      ensures pending == [] && Account().live == old(pending)
      ensures KeepsOthers(old(retired), old(pending), retired)
      ensures FreesReplaced(old(retired), old(pending), old(freed), freed)
    {
      assert LiveOf(slots, insertionOrder, slotOf) == [];
      while pending != []
        invariant BooksOk(Account()) && StoreOk(slots, insertionOrder, slotOf) && |slots| == |old(slots)|
        invariant QueueOk(pending, insertionOrder, slotOf, |slots|)
        invariant Account().live + pending == old(pending)
        invariant KeepsOthers(old(retired), Account().live, retired)
        invariant FreesReplaced(old(retired), Account().live, old(freed), freed)
        decreases |pending|
      {
        QueueTail(pending, insertionOrder, slotOf, |slots|);
        LiveHasDesc(slots, insertionOrder, slotOf, pending[0].desc);
        UnqueuedOk(Account());
        UnqueuedLine(Account());
        UnqueuedRetired(Account(), old(retired), old(freed));
        StoreFirstQueued();
      }
    }

    method StoreFirstQueued()
      requires StoreOk(slots, insertionOrder, slotOf) && pending != []
      requires QueueOk(pending, insertionOrder, slotOf, |slots|)
      modifies this`pending, this`slots, this`insertionOrder, this`retired, this`freed
      ensures StoreOk(slots, insertionOrder, slotOf) && |slots| == |old(slots)|
      ensures pending == old(pending)[1..] && insertionOrder == old(insertionOrder) + [old(pending)[0].desc]
      ensures Account() == Unqueued(old(Account()))
    {
      var h := pending[0];
      pending := pending[1..];
      Store(h.desc, h.inst);
    }

    /** From here on the live instances can still be resolved, and nothing new is built or stored. */
    method BeginStop()
      requires Valid() && scopeState.Running?
      modifies this`scopeState
      ensures Valid() && scopeState.Stopping? && Account() == old(Account())
    {
      scopeState := Stopping;
    }

    /** Destroys the live instances in reverse order; a restart keeps their memory, if the list of kept blocks can grow. */
    method StopScope(deferDeallocation: bool)
      requires Valid() && scopeState.Running?
      modifies this`scopeState, this`slots, this`insertionOrder, this`retired, this`destroyed, this`freed, this`failedRestart
      ensures Valid() && scopeState.Stopped? && insertionOrder == []
      ensures destroyed == old(destroyed) + BackwardsInsts(old(Account()).live)
      ensures !deferDeallocation ==> retired == []
      ensures failedRestart <==> deferDeallocation && (old(Account()).live != [] || old(retired) != [])
      ensures deferDeallocation && canKeep ==> AllKept(old(Account()), Account())
    {
      MarkStopping(deferDeallocation);
      EmptySlots(deferDeallocation);
    }

    method MarkStopping(deferDeallocation: bool)
      modifies this`scopeState, this`failedRestart
      ensures scopeState.Stopping? && Account() == old(Account())
      ensures failedRestart <==> deferDeallocation && (Account().live != [] || retired != [])
      ensures failedRestart <==> deferDeallocation && (insertionOrder != [] || retired != [])
    {
      scopeState, failedRestart := Stopping, deferDeallocation && (insertionOrder != [] || retired != []);
      assert |Account().live| == |insertionOrder|;
    }

    method EmptySlots(deferDeallocation: bool)
      requires BooksOk(Account()) && StoreOk(slots, insertionOrder, slotOf)
      modifies this`scopeState, this`slots, this`insertionOrder, this`retired, this`destroyed, this`freed
      ensures BooksOk(Account()) && StoreOk(slots, insertionOrder, slotOf)
      ensures scopeState == Stopped && slots == [] && insertionOrder == []
      ensures destroyed == old(destroyed) + BackwardsInsts(old(Account()).live)
      ensures retired != [] ==> deferDeallocation && (old(insertionOrder) != [] || old(retired) != [])
      ensures deferDeallocation && canKeep && (old(insertionOrder) != [] || old(retired) != []) ==> retired != []
      ensures deferDeallocation && canKeep ==> AllKept(old(Account()), Account())
    {
      SweepAll(deferDeallocation);
      EndStop(deferDeallocation);
    }

    method EndStop(deferDeallocation: bool)
      requires BooksOk(Account()) && Injective(slotOf) && insertionOrder == []
      modifies this`scopeState, this`slots, this`retired, this`freed
      ensures slots == [] && scopeState == Stopped && StoreOk(slots, insertionOrder, slotOf)
      ensures BooksOk(Account()) && Account().live == []
      ensures retired == if deferDeallocation then old(retired) else []
      ensures deferDeallocation ==> freed == old(freed)
    {
      if !deferDeallocation {
        ReleaseRetiredBlocks();
      }
      ReleaseArrays();
    }

    method ReleaseArrays()
      requires insertionOrder == [] && Injective(slotOf) && BooksOk(Account())
      modifies this`slots, this`scopeState
      ensures slots == [] && scopeState == Stopped && StoreOk(slots, insertionOrder, slotOf)
      ensures BooksOk(Account()) && Account().live == []
    {
      scopeState, slots := Stopped, [];
      assert LiveOf(slots, insertionOrder, slotOf) == old(LiveOf(slots, insertionOrder, slotOf)) == [];
    }

    method SweepAll(deferDeallocation: bool)
      requires BooksOk(Account()) && StoreOk(slots, insertionOrder, slotOf)
      modifies this`slots, this`insertionOrder, this`retired, this`destroyed, this`freed
      ensures BooksOk(Account()) && StoreOk(slots, insertionOrder, slotOf)
      ensures insertionOrder == [] && |slots| == |old(slots)|
      ensures destroyed == old(destroyed) + BackwardsInsts(old(Account()).live)
      ensures |retired| <= |old(retired)| + |old(insertionOrder)|
      ensures deferDeallocation && canKeep ==> |retired| == |old(retired)| + |old(insertionOrder)|
      ensures deferDeallocation && canKeep ==> AllKept(old(Account()), Account())
    {
      while insertionOrder != []
        invariant BooksOk(Account()) && StoreOk(slots, insertionOrder, slotOf) && |slots| == |old(slots)|
        invariant destroyed + BackwardsInsts(Account().live) == old(destroyed) + BackwardsInsts(old(Account()).live)
        invariant |retired| + |insertionOrder| <= |old(retired)| + |old(insertionOrder)|
        invariant deferDeallocation && canKeep ==>
          |retired| + |insertionOrder| == |old(retired)| + |old(insertionOrder)|
        invariant deferDeallocation && canKeep ==> AllKept(old(Account()), Account())
        decreases |insertionOrder|
      {
        var pushed: bool := *;
        var keep := deferDeallocation && (canKeep || pushed);
        SweptOk(Account(), keep);
        SweptLine(Account(), keep);
        if deferDeallocation && canKeep {
          SweptKeeps(old(Account()), Account());
        }
        SweepLast(keep);
      }
    }

    /** One step of the sweep, between which hooks may resolve and bind. */
    method SweepStep(keep: bool)
      requires Valid() && scopeState.Stopping? && insertionOrder != []
      modifies this`slots, this`insertionOrder, this`retired, this`destroyed, this`freed
      ensures Valid() && Account() == Swept(old(Account()), keep)
    {
      SweptOk(Account(), keep);
      SweepLast(keep);
    }

    method SweepLast(keep: bool)
      requires StoreOk(slots, insertionOrder, slotOf) && insertionOrder != []
      modifies this`slots, this`insertionOrder, this`retired, this`destroyed, this`freed
      ensures Account() == Swept(old(Account()), keep)
      ensures StoreOk(slots, insertionOrder, slotOf) && |slots| == |old(slots)|
      ensures insertionOrder == old(insertionOrder)[..|old(insertionOrder)| - 1]
    {
      var n := |insertionOrder| - 1;
      var d := insertionOrder[n];
      ClearSlot(slots, insertionOrder, slotOf);
      var i := InstAt(slots, SlotOf(slotOf, d));
      destroyed := destroyed + [i];
      if keep {
        retired := retired + [Holding(d, i)];
      } else {
        freed := freed + [i];
      }
      slots := slots[SlotOf(slotOf, d) := None];
      insertionOrder := insertionOrder[..n];
    }

    method ReleaseRetiredBlocks()
      requires BooksOk(Account())
      modifies this`retired, this`freed
      ensures BooksOk(Account()) && Account() == AllReleased(old(Account()))
    {
      AllReleasedOk(Account());
      freed := freed + Insts(retired);
      retired := [];
    }

    /**
     Does nothing unless the scope runs. Afterwards everything that entered and
     is not queued has been destroyed once and freed once, if and only if the
     scope ran, or was stopped other than by a restart that failed to start
     again (with a list of kept blocks that can always grow; without, a failed
     restart may have freed them all).
     */
    method Stop()
      requires Valid()
      modifies this`scopeState, this`slots, this`insertionOrder, this`retired, this`destroyed, this`freed, this`failedRestart
      ensures Valid() && pending == old(pending) && entered == old(entered)
      ensures !old(scopeState).Running? ==>
        Account() == old(Account()) && scopeState == old(scopeState) && failedRestart == old(failedRestart)
      ensures old(scopeState).Running? ==> scopeState.Stopped? && insertionOrder == [] && !failedRestart
      ensures old(scopeState).Running? ==> destroyed == old(destroyed) + BackwardsInsts(old(Account()).live)
      ensures old(scopeState).Running? || (old(scopeState).Stopped? && !old(failedRestart)) ==> Settled(Account())
      ensures canKeep && old(scopeState).Stopped? && old(failedRestart) ==> !Settled(Account())
    {
      if scopeState.Running? {
        StopScope(false);
      }
      if scopeState.Stopped? {
        LiveWhenEmpty(slots, slotOf);
        if retired == [] {
          AllSettled(Account());
        } else {
          RetiredUnsettled(Account());
        }
      }
    }

    /**
     Between the cycles, the memory of destroyed instances is kept, at most one
     block per descriptor. If the list of kept blocks can always grow, a restart
     of a running scope frees nothing: every instance that was live is retired,
     still in use at its address.
     */
    method Restart() returns (ok: bool)
      requires Valid()
      modifies this`scopeState, this`pending, this`slots, this`insertionOrder, this`retired, this`destroyed, this`freed,
        this`failedRestart
      ensures Valid() && OnePerDesc(retired)
      ensures ok <==> registryStarted && !old(scopeState).Stopping?
      ensures ok ==> scopeState.Running? && pending == [] && Account().live == old(pending)
      ensures !ok ==> pending == old(pending)
      ensures !ok && old(scopeState).Running? ==>
        && scopeState.Stopped? && insertionOrder == []
        && (failedRestart <==> old(Account()).live != [] || old(retired) != [])
      ensures !ok && !old(scopeState).Running? ==> Account() == old(Account()) && failedRestart == old(failedRestart)
      ensures old(scopeState).Running? ==> destroyed == old(destroyed) + BackwardsInsts(old(Account()).live)
      ensures !old(scopeState).Running? ==> destroyed == old(destroyed)
      ensures canKeep && old(scopeState).Running? ==>
        && (forall i :: i in freed <==> i in old(freed))
        && (forall x: Holding :: x in retired <==> x in old(retired) || x in old(Account()).live)
        && (forall x: Holding :: x in old(Account()).live ==> InUse(Account(), x.inst))
      ensures ok && old(scopeState).Stopped? ==>
        KeepsOthers(old(retired), old(pending), retired) && FreesReplaced(old(retired), old(pending), old(freed), freed)
    {
      if scopeState.Running? {
        ok := StopAndStart();
      } else {
        Stop();
        ok := Start();
      }
    }

    method StopAndStart() returns (ok: bool)
      requires Valid() && scopeState.Running?
      modifies this`scopeState, this`pending, this`slots, this`insertionOrder, this`retired, this`destroyed, this`freed,
        this`failedRestart
      ensures Valid() && pending == old(pending) == []
      ensures ok <==> registryStarted
      ensures ok ==> scopeState.Running? && Account().live == []
      ensures !ok ==> scopeState.Stopped? && insertionOrder == []
      ensures !ok ==> (failedRestart <==> old(Account()).live != [] || old(retired) != [])
      ensures destroyed == old(destroyed) + BackwardsInsts(old(Account()).live)
      ensures canKeep ==>
        && (forall i :: i in freed <==> i in old(freed))
        && (forall x: Holding :: x in retired <==> x in old(retired) || x in old(Account()).live)
    {
      StopScope(true);
      ok := Start();
    }

    /** The scope's destructor: what is queued is destroyed and freed, and retired memory at last, too. */
    method Dispose()
      requires Valid() && scopeState.Stopped?
      modifies this`pending, this`retired, this`destroyed, this`freed, this`failedRestart
      ensures Valid() && pending == [] && Settled(Account())
    {
      LiveWhenEmpty(slots, slotOf);
      DisposedOk(Account());
      destroyed := destroyed + Insts(pending);
      freed := freed + Insts(retired) + Insts(pending);
      pending := [];
      retired := [];
      failedRestart := false;
      AllSettled(Account());
    }
  }

  /** Everything that entered and is not queued has been destroyed once and freed once. */
  ghost predicate Settled(b: Books) {
    forall i :: i in b.entered && !Holds(b.pending, i) ==> multiset(b.destroyed)[i] == 1 && multiset(b.freed)[i] == 1
  }

  lemma {:induction false} AllSettled(b: Books)
    requires BooksOk(b) && b.live == [] && b.retired == []
    ensures Settled(b)
  {
    forall i | i in b.entered && !Holds(b.pending, i)
      ensures multiset(b.destroyed)[i] == 1 && multiset(b.freed)[i] == 1
    {
      SettledWhenEmpty(b, i);
    }
  }

  lemma {:induction false} RetiredUnsettled(b: Books)
    requires BooksOk(b) && b.retired != []
    ensures !Settled(b)
  {
    var i := b.retired[0].inst;
    assert Holds(b.retired, i);
    OnceOnly(b.freed, i);
    assert i in b.destroyed && i in b.entered && !Holds(b.pending, i);
  }

  lemma {:induction false} LiveWhenEmpty(slots: seq<Option<Inst>>, slotOf: map<Desc, Slot>)
    ensures LiveOf(slots, [], slotOf) == []
  {
  }

  function Disposed(b: Books): Books {
    b.(pending := [], retired := [], destroyed := b.destroyed + Insts(b.pending),
       freed := b.freed + Insts(b.retired) + Insts(b.pending))
  }

  lemma {:induction false} InstsHold(v: seq<Holding>)
    requires OnePerDesc(v)
    ensures NoDuplicates(Insts(v)) && forall i :: i in Insts(v) <==> Holds(v, i)
  {
    forall i | Holds(v, i)
      ensures i in Insts(v)
    {
      var k :| 0 <= k < |v| && v[k].inst == i;
      assert Insts(v)[k] == i;
    }
  }

  lemma {:induction false} DisposedOk(b: Books)
    requires BooksOk(b) && b.live == []
    ensures BooksOk(Disposed(b))
  {
    InstsHold(b.pending);
    AllReleasedOk(b);
    var r := AllReleased(b);
    InstsHold(r.pending);
    ConcatDistinct(r.destroyed, Insts(b.pending));
    ConcatDistinct(r.freed, Insts(b.pending));
    FewerInUse(r, Disposed(b));
  }

  method OneInstance(d: Desc, i: Inst, a: Addr) returns (scope: SessionScope, built: Outcome)
    ensures fresh(scope) && scope.Valid() && scope.scopeState.Running? && scope.canKeep && scope.registryStarted
    ensures built == Done(i) && scope.Account().live == [Holding(d, i)] && scope.pending == [] && scope.entered == {i}
  {
    scope := EmptyScope(d);
    built := BuildFirst(scope, d, i, a);
  }

  method BuildFirst(scope: SessionScope, d: Desc, i: Inst, a: Addr) returns (built: Outcome)
    requires scope.Valid() && scope.scopeState.Running? && d in scope.slotOf && d !in scope.bound
    requires scope.Account().live == [] && scope.pending == [] && scope.entered == {}
    modifies scope`slots, scope`insertionOrder, scope`retired, scope`entered, scope`freed, scope`address
    ensures scope.Valid() && built == Done(i) && scope.Account().live == [Holding(d, i)] && scope.entered == {i}
  {
    FirstStored(scope.Account(), d, i, a);
    built := scope.Materialize(d, i, a, false);
  }

  method EmptyScope(d: Desc) returns (scope: SessionScope)
    ensures fresh(scope) && scope.Valid() && scope.scopeState.Running? && scope.canKeep && scope.registryStarted
    ensures scope.slotOf == map[d := 0] && scope.bound == {}
    ensures scope.Account().live == [] && scope.pending == [] && scope.entered == {}
  {
    scope := new SessionScope(map[d := 0], {}, 1, true);
    var started := scope.Start();
  }

  lemma FirstStored(b: Books, d: Desc, i: Inst, a: Addr)
    requires b.live == [] && b.pending == [] && b.entered == {}
    ensures !HasDesc(b.live, d) && FreshMemory(b, i, a)
  {
  }

  /** Start, materialize, restart: the instance is destroyed, and no new memory can be at its address. */
  method RestartKeepsMemory(d: Desc, i: Inst, a: Addr)
    returns (scope: SessionScope, built: Outcome, restarted: bool)
    ensures fresh(scope) && scope.Valid() && built == Done(i) && restarted && scope.scopeState.Running?
    ensures i in scope.destroyed && i !in scope.freed && Holding(d, i) in scope.retired
    ensures forall j: Inst, c: Addr :: FreshMemory(scope.Account(), j, c) ==> c != AddressOf(scope.Account(), i)
  {
    scope, built := OneInstance(d, i, a);
    ghost var live := scope.Account().live;
    assert live == [Holding(d, i)] && live[..0] == [] && BackwardsInsts(live) == [i];
    assert Holding(d, i) in live;
    restarted := scope.Restart();
    assert i in scope.destroyed && InUse(scope.Account(), i);
  }

  /**
   Start, materialize, the registry is rolled back, restart, stop: the instance
   is destroyed, and its memory is still allocated.
   */
  method FailedRestartKeepsMemory(d: Desc, i: Inst, a: Addr)
    returns (scope: SessionScope, built: Outcome, restarted: bool)
    ensures fresh(scope) && scope.Valid() && built == Done(i) && !restarted
    ensures scope.scopeState.Stopped? && i in scope.destroyed && i !in scope.freed
  {
    scope, built := OneInstance(d, i, a);
    scope.RegistryStops();
    ghost var live := scope.Account().live;
    assert live[..0] == [] && BackwardsInsts(live) == [i];
    restarted := scope.Restart();
    assert i in scope.destroyed && scope.failedRestart;
    scope.Stop();
    OnlyOneUnsettled(scope.Account(), i);
  }

  lemma {:induction false} OnlyOneUnsettled(b: Books, i: Inst)
    requires BooksOk(b) && !Settled(b) && b.entered == {i} && i in b.destroyed
    ensures i !in b.freed
  {
    OnceOnly(b.destroyed, i);
    OnceOnly(b.freed, i);
  }

  lemma {:induction false} Widened(
    slots: seq<Option<Inst>>, more: seq<Option<Inst>>, order: seq<Desc>, slotOf: map<Desc, Slot>)
    requires StoreOk(slots, order, slotOf) && |slots| <= |more|
    requires forall k :: 0 <= k < |more| ==> more[k] == if k < |slots| then slots[k] else None
    ensures StoreOk(more, order, slotOf) && LiveOf(more, order, slotOf) == LiveOf(slots, order, slotOf)
  {
    forall k | 0 <= k < |order|
      ensures InstAt(more, SlotOf(slotOf, order[k])) == InstAt(slots, SlotOf(slotOf, order[k]))
    {
      assert order[k] in order;
    }
  }
}
