/**
 Interning of C++ types into dense ids: maps filled during start and read-only
 after freeze, and an overflow table for types bound later. Together they
 refine one list of names, the id of a name being its position.
 */
module TypeInterning {
  import opened Common

  type Name = string
  // std::type_index
  type Index = nat
  type TypeId = nat

  function PositionOf<T(==)>(v: seq<T>, x: T): Option<nat> {
    if v == [] then None
    else if v[0] == x then Some(0)
    else
      var p := PositionOf(v[1..], x);
      if p.Some? then Some(p.value + 1) else None
  }

  lemma {:induction false} PositionFound<T>(v: seq<T>, x: T)
    ensures PositionOf(v, x).Some? <==> x in v
    ensures PositionOf(v, x).Some? ==> PositionOf(v, x).value < |v| && v[PositionOf(v, x).value] == x
  {
    if v != [] && v[0] != x {
      PositionFound(v[1..], x);
    }
  }

  /** Appending moves nothing. */
  lemma {:induction false} PositionStays<T>(v: seq<T>, w: seq<T>, x: T)
    ensures PositionOf(v + w, x) ==
      if x in v then PositionOf(v, x)
      else if PositionOf(w, x).Some? then Some(|v| + PositionOf(w, x).value) else None
  {
    if v == [] {
      assert v + w == w;
    } else {
      assert (v + w)[1..] == v[1..] + w;
      if v[0] != x {
        PositionStays(v[1..], w, x);
        PositionFound(v[1..], x);
      }
    }
  }

  lemma {:induction false} NewPosition<T>(v: seq<T>, x: T)
    requires x !in v
    ensures PositionOf(v + [x], x) == Some(|v|)
  {
    PositionStays(v, [x], x);
  }

  /** The map holds for each element of the list its first position, counted from `base`. */
  ghost predicate MapsPositions<T(!new)>(m: map<T, nat>, v: seq<T>, base: nat) {
    && (forall x :: x in m <==> x in v)
    && (forall x {:trigger m[x]} :: x in m ==> PositionOf(v, x).Some? && m[x] == base + PositionOf(v, x).value)
  }

  /** What try_emplace leaves: a key that is there keeps its value. */
  function Emplaced<T(==)>(m: map<T, nat>, x: T, id: nat): map<T, nat> {
    if x in m then m else m[x := id]
  }

  lemma {:induction false} MapsOneMore<T(!new)>(m: map<T, nat>, v: seq<T>, base: nat, x: T)
    requires MapsPositions(m, v, base)
    ensures MapsPositions(Emplaced(m, x, base + |v|), v + [x], base)
  {
    forall y
      ensures PositionOf(v + [x], y) == if y in v then PositionOf(v, y) else if y == x then Some(|v|) else None
    {
      PositionStays(v, [x], y);
      assert PositionOf([x], y) == if y == x then Some(0) else None;
    }
    forall y
      ensures y in v + [x] <==> y in v || y == x
    {
    }
  }

  lemma Regroup<T>(v: seq<T>, w: seq<T>, x: T)
    ensures v + (w + [x]) == v + w + [x]
  {
  }

  lemma {:induction false} NewIsDistinct<T>(v: seq<T>, x: T)
    requires NoDuplicates(v) && x !in v
    ensures NoDuplicates(v + [x])
  {
  }

  /** One of the two tables: its names and indices with the ids from `base` on. */
  ghost predicate TableOk(
    nameToId: map<Name, TypeId>, names: seq<Name>, indexToId: map<Index, TypeId>, indices: seq<Index>, base: nat)
  {
    |indices| == |names| && MapsPositions(nameToId, names, base) && MapsPositions(indexToId, indices, base)
  }

  lemma {:induction false} TableGrows(
    nameToId: map<Name, TypeId>, names: seq<Name>, indexToId: map<Index, TypeId>, indices: seq<Index>, base: nat,
    name: Name, index: Index)
    requires TableOk(nameToId, names, indexToId, indices, base)
    ensures TableOk(Emplaced(nameToId, name, base + |names|), names + [name],
                    Emplaced(indexToId, index, base + |names|), indices + [index], base)
  {
    MapsOneMore(nameToId, names, base, name);
    MapsOneMore(indexToId, indices, base, index);
  }

  class TypeInterning {
    var nameToId: map<Name, TypeId>
    var idToName: seq<Name>
    var indexToId: map<Index, TypeId>
    var overflowNameToId: map<Name, TypeId>
    var overflowIdToName: seq<Name>
    var overflowIndexToId: map<Index, TypeId>
    var frozen: bool
    /** The type_index each id was interned with. */
    ghost var startupIndices: seq<Index>
    ghost var overflowIndices: seq<Index>

    ghost predicate Valid()
      reads this
    {
      && NoDuplicates(idToName + overflowIdToName)
      && TableOk(nameToId, idToName, indexToId, startupIndices, 0)
      && TableOk(overflowNameToId, overflowIdToName, overflowIndexToId, overflowIndices, |idToName|)
      && (!frozen ==> overflowIdToName == [])
    }

    /** All interned names; the id of a name is its position. */
    ghost function Names(): seq<Name>
      reads this
    {
      idToName + overflowIdToName
    }

    ghost function Indices(): seq<Index>
      reads this
    {
      startupIndices + overflowIndices
    }

    constructor ()
      ensures Valid() && Names() == [] && Indices() == [] && !frozen
    {
      nameToId, idToName, indexToId := map[], [], map[];
      overflowNameToId, overflowIdToName, overflowIndexToId := map[], [], map[];
      frozen, startupIndices, overflowIndices := false, [], [];
    }

    /** A known name keeps its id; a new one gets the next, whichever table it goes to. */
    method InternByName(name: Name, index: Index) returns (id: TypeId)
      requires Valid()
      modifies this`nameToId, this`idToName, this`indexToId, this`overflowNameToId, this`overflowIdToName,
        this`overflowIndexToId, this`startupIndices, this`overflowIndices
      ensures Valid() && Some(id) == PositionOf(Names(), name)
      ensures name in old(Names()) ==> Names() == old(Names()) && Indices() == old(Indices())
      ensures name !in old(Names()) ==> Names() == old(Names()) + [name] && Indices() == old(Indices()) + [index]
      ensures frozen ==>
        idToName == old(idToName) && nameToId == old(nameToId) && indexToId == old(indexToId)
    {
      PositionStays(idToName, overflowIdToName, name);
      PositionFound(idToName, name);
      PositionFound(overflowIdToName, name);
      if name in nameToId {
        return nameToId[name];
      }
      if !frozen {
        id := AddStartup(name, index);
      } else if name in overflowNameToId {
        id := overflowNameToId[name];
      } else {
        id := AddOverflow(name, index);
      }
    }

    method AddStartup(name: Name, index: Index) returns (id: TypeId)
      requires Valid() && !frozen && name !in Names()
      modifies this`nameToId, this`idToName, this`indexToId, this`startupIndices
      ensures Valid() && id == |old(Names())|
      ensures Names() == old(Names()) + [name] && Indices() == old(Indices()) + [index]
      ensures Some(id) == PositionOf(Names(), name)
    {
      ghost var names, indices := Names(), Indices();
      id := |idToName|;
      NewPosition(names, name);
      NewIsDistinct(names, name);
      TableGrows(nameToId, idToName, indexToId, startupIndices, 0, name, index);
      assert overflowIndices == [] && overflowIdToName == [];
      assert names == idToName && indices == startupIndices;
      RecordStartup(name, index, id);
      assert Names() == names + [name] && Indices() == indices + [index];
    }

    method AddOverflow(name: Name, index: Index) returns (id: TypeId)
      requires Valid() && frozen && name !in Names()
      modifies this`overflowNameToId, this`overflowIdToName, this`overflowIndexToId, this`overflowIndices
      ensures Valid() && id == |old(Names())|
      ensures Names() == old(Names()) + [name] && Indices() == old(Indices()) + [index]
      ensures Some(id) == PositionOf(Names(), name)
    {
      ghost var names, indices := Names(), Indices();
      id := |idToName| + |overflowIdToName|;
      NewPosition(names, name);
      NewIsDistinct(names, name);
      Regroup(idToName, overflowIdToName, name);
      Regroup(startupIndices, overflowIndices, index);
      TableGrows(overflowNameToId, overflowIdToName, overflowIndexToId, overflowIndices, |idToName|, name, index);
      RecordOverflow(name, index, id);
      assert Names() == names + [name] && Indices() == indices + [index];
    }

    method RecordStartup(name: Name, index: Index, id: TypeId)
      modifies this`nameToId, this`idToName, this`indexToId, this`startupIndices
      ensures nameToId == Emplaced(old(nameToId), name, id) && idToName == old(idToName) + [name]
      ensures indexToId == Emplaced(old(indexToId), index, id) && startupIndices == old(startupIndices) + [index]
    {
      nameToId := Emplaced(nameToId, name, id);
      indexToId := Emplaced(indexToId, index, id);
      startupIndices := startupIndices + [index];
      idToName := idToName + [name];
    }

    method RecordOverflow(name: Name, index: Index, id: TypeId)
      modifies this`overflowNameToId, this`overflowIdToName, this`overflowIndexToId, this`overflowIndices
      ensures overflowNameToId == Emplaced(old(overflowNameToId), name, id)
      ensures overflowIdToName == old(overflowIdToName) + [name]
      ensures overflowIndexToId == Emplaced(old(overflowIndexToId), index, id)
      ensures overflowIndices == old(overflowIndices) + [index]
    {
      overflowNameToId := Emplaced(overflowNameToId, name, id);
      overflowIndexToId := Emplaced(overflowIndexToId, index, id);
      overflowIndices := overflowIndices + [index];
      overflowIdToName := overflowIdToName + [name];
    }

    method Freeze()
      requires Valid()
      modifies this`frozen
      ensures Valid() && frozen
    {
      frozen := true;
    }

    /** The first id interned with this type_index, startup ids before overflow ids. */
    method LookupByTypeIndex(index: Index) returns (id: Option<TypeId>)
      requires Valid()
      ensures id == PositionOf(Indices(), index)
    {
      PositionStays(startupIndices, overflowIndices, index);
      PositionFound(startupIndices, index);
      PositionFound(overflowIndices, index);
      if index in indexToId {
        return Some(indexToId[index]);
      }
      id := if index in overflowIndexToId then Some(overflowIndexToId[index]) else None;
    }

    method NameOf(id: TypeId) returns (name: Name)
      requires Valid() && id < |Names()|
      ensures name == Names()[id] && PositionOf(Names(), name) == Some(id)
    {
      name := if id < |idToName| then idToName[id] else overflowIdToName[id - |idToName|];
      PositionFound(Names(), name);
    }
  }

  /**
   A lookup by type_index finds the id of the type's name if and only if the
   name was interned with that very index, and the index not before with another.
   */
  lemma {:induction false} LookupFindsNameIff(names: seq<Name>, indices: seq<Index>, name: Name, index: Index, id: TypeId)
    requires |names| == |indices| && NoDuplicates(names) && id < |names| && names[id] == name
    ensures PositionOf(indices, index) == PositionOf(names, name) <==> indices[id] == index && index !in indices[..id]
  {
    PositionFound(names, name);
    PositionFound(indices, index);
    assert indices == indices[..id] + indices[id..];
    PositionStays(indices[..id], indices[id..], index);
    PositionFound(indices[..id], index);
  }

  /** An interned pair keeps its ids through all later interning. */
  lemma {:induction false} IdsAreStable(names: seq<Name>, more: seq<Name>, name: Name)
    requires name in names
    ensures PositionOf(names + more, name) == PositionOf(names, name)
  {
    PositionStays(names, more, name);
  }
}
