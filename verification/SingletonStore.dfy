/**
 Singleton instances: a growable array and a frozen snapshot of the array as
 it was at start. Together they refine one map from descriptors to instances.
 */
module SingletonStore {
  import opened Common

  type Obj = nat

  function Lookup(m: map<nat, Obj>, id: nat): Option<Obj> {
    if id in m then Some(m[id]) else None
  }

  class SingletonStore {
    var base: array?<Option<Obj>>
    var size: nat
    var frozenBase: array?<Option<Obj>>
    var frozenSize: nat
    /** Owns every array allocated since the last release; readers may still hold old ones. */
    var graveyard: seq<array<Option<Obj>>>
    var insertionOrder: seq<nat>
    ghost var contents: map<nat, Obj>

    ghost predicate Valid()
      reads this, base, frozenBase
    {
      && (base == null ==> size == 0)
      && (base != null ==> base.Length == size && base in graveyard)
      && (frozenBase == null ==> frozenSize == 0)
      && (frozenBase != null ==> base != null && frozenBase.Length == frozenSize && frozenBase in graveyard)
      && frozenSize <= size
      && (frozenBase == base || frozenSize < size)
      && (forall i :: 0 <= i < size ==> base[i] == Lookup(contents, i))
      && (forall i :: 0 <= i < frozenSize ==> frozenBase[i] == base[i])
      && NoDuplicates(insertionOrder)
      && (forall id :: id in insertionOrder <==> id in contents)
      && (forall id :: id in contents ==> id < size)
    }

    constructor ()
      ensures Valid() && contents == map[] && insertionOrder == [] && size == 0 && graveyard == []
    {
      base, size, frozenBase, frozenSize := null, 0, null, 0;
      graveyard, insertionOrder, contents := [], [], map[];
    }

    /** Stores an instance, and mirrors it into the frozen snapshot when that is another array by now. */
    method Store(id: nat, mem: Obj)
      requires Valid() && id < size && id !in contents
      modifies this`insertionOrder, this`contents, base, frozenBase
      ensures Valid() && contents == old(contents)[id := mem] && insertionOrder == old(insertionOrder) + [id]
    {
      insertionOrder := insertionOrder + [id];
      base[id] := Some(mem);
      if id < frozenSize && frozenBase != null && frozenBase != base {
        frozenBase[id] := Some(mem);
      }
      contents := contents[id := mem];
    }

    /** Publishes a larger copy of the array first if needed; the old array stays allocated. */
    method GrowAndStore(id: nat, mem: Obj)
      requires Valid() && id !in contents
      modifies this`base, this`size, this`graveyard, this`insertionOrder, this`contents, base, frozenBase
      ensures Valid() && contents == old(contents)[id := mem] && insertionOrder == old(insertionOrder) + [id]
      ensures old(graveyard) <= graveyard
      ensures size == if id + 1 > old(size) then id + 1 else old(size)
      ensures frozenSize == old(frozenSize) && frozenBase == old(frozenBase)
    {
      if id + 1 > size {
        Grow(id + 1);
      }
      Store(id, mem);
    }

    method Grow(newSize: nat)
      requires Valid() && newSize > size
      modifies this`base, this`size, this`graveyard
      ensures Valid() && size == newSize && fresh(base) && base != null
      ensures old(graveyard) <= graveyard
    {
      var newArr := new Option<Obj>[newSize](_ => None);
      for i := 0 to size
        invariant unchanged(this) && base != newArr
        invariant forall j :: 0 <= j < newSize ==> newArr[j] == if j < i then base[j] else None
      {
        newArr[i] := base[i];
      }
      graveyard := graveyard + [newArr];
      base := newArr;
      size := newSize;
    }

    /** Sizes both arrays for the descriptors known at start; nothing is stored yet. */
    method Resize(descriptorCount: nat)
      requires Valid() && contents == map[]
      modifies this`base, this`size, this`frozenBase, this`frozenSize, this`graveyard
      ensures Valid() && size == frozenSize == descriptorCount && base == frozenBase && fresh(base)
      ensures old(graveyard) <= graveyard
    {
      var newArr := new Option<Obj>[descriptorCount](_ => None);
      graveyard := graveyard + [newArr];
      frozenBase := newArr;
      frozenSize := descriptorCount;
      base := newArr;
      size := descriptorCount;
    }

    method Find(id: nat) returns (instance: Option<Obj>)
      requires Valid()
      ensures instance == Lookup(contents, id)
    {
      if id < frozenSize {
        if frozenBase == null {
          return None;
        }
        return frozenBase[id];
      }
      if id >= size {
        return None;
      }
      if base == null {
        return None;
      }
      instance := base[id];
    }

    method ReleaseAll()
      requires Valid()
      modifies this
      ensures Valid() && contents == map[] && insertionOrder == [] && graveyard == [] && size == 0
    {
      graveyard := [];
      frozenBase := null;
      frozenSize := 0;
      base := null;
      size := 0;
      insertionOrder := [];
      contents := map[];
    }

    /**
     The stop-time sweep: every stored instance is found and destroyed once, in
     reverse insertion order, and the store is empty afterwards.
     */
    method DestroyAll() returns (destroyed: seq<(nat, Obj)>)
      requires Valid()
      modifies this
      ensures Valid() && contents == map[]
      ensures |destroyed| == |old(insertionOrder)|
      ensures forall i :: 0 <= i < |destroyed| ==>
                destroyed[i].0 == Reversed(old(insertionOrder))[i]
                && destroyed[i].0 in old(contents) && destroyed[i].1 == old(contents)[destroyed[i].0]
      ensures forall i, j :: 0 <= i < j < |destroyed| ==> destroyed[i].0 != destroyed[j].0
      ensures forall id :: id in old(contents) ==> exists i :: 0 <= i < |destroyed| && destroyed[i].0 == id
    {
      destroyed := [];
      var order := insertionOrder;
      var i := |order|;
      while i > 0
        invariant Valid() && unchanged(this) && 0 <= i <= |order|
        invariant |destroyed| == |order| - i
        invariant forall j :: 0 <= j < |destroyed| ==>
                    destroyed[j].0 == order[|order| - 1 - j]
                    && destroyed[j].0 in contents && destroyed[j].1 == contents[destroyed[j].0]
      {
        var mem := Find(order[i - 1]);
        if mem.Some? {
          destroyed := destroyed + [(order[i - 1], mem.value)];
        }
        i := i - 1;
      }
      forall id | id in contents
        ensures exists j :: 0 <= j < |destroyed| && destroyed[j].0 == id
      {
        var k :| 0 <= k < |order| && order[k] == id;
        assert destroyed[|order| - 1 - k].0 == id;
      }
      ReleaseAll();
    }
  }
}
