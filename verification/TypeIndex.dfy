/**
 The candidate index: per key a candidate list, kept sorted by descending
 priority, with its head, its ambiguity bit and the shortcut for the single
 unnamed candidate computed in advance.
 */
module TypeIndex {
  import opened Common
  import opened Selection

  datatype NameEntry = NameEntry(candidates: seq<DescriptorId>, head: Option<DescriptorId>, ambiguous: bool)

  type Entries = map<Key, NameEntry>

  function HeadOf(v: seq<DescriptorId>): Option<DescriptorId> {
    if v == [] then None else Some(v[0])
  }

  /** The precomputed fields say what the sorted list says. */
  ghost predicate Precomputed(ds: seq<Descriptor>, e: NameEntry) {
    Sorted(ds, e.candidates) && e.head == HeadOf(e.candidates) && e.ambiguous == TopTied(ds, e.candidates)
  }

  /** Without a precomputed head a lookup falls back to the candidate list. */
  ghost predicate Usable(ds: seq<Descriptor>, e: NameEntry) {
    Sorted(ds, e.candidates) && (e.head.None? || Precomputed(ds, e))
  }

  function Candidates(entries: Entries, key: Key): seq<DescriptorId> {
    if key in entries then entries[key].candidates else []
  }

  function Extended(entries: Entries, key: Key, d: DescriptorId): Entries {
    entries[key :=
      if key in entries then entries[key].(candidates := entries[key].candidates + [d])
      else NameEntry([d], None, false)]
  }

  function PendingFor(pending: seq<(Key, DescriptorId)>, key: Key): multiset<DescriptorId> {
    if pending == [] then multiset{}
    else
      var last := pending[|pending| - 1];
      PendingFor(pending[..|pending| - 1], key) + (if last.0 == key then multiset{last.1} else multiset{})
  }

  /** The shortcut table names a key's candidate exactly when the unnamed key has one only. */
  ghost predicate SingleOk(entries: Entries, singleUnnamed: map<TypeId, DescriptorId>, t: TypeId) {
    var v := Candidates(entries, Key(t, UNNAMED));
    if |v| == 1 then t in singleUnnamed && singleUnnamed[t] == v[0] else t !in singleUnnamed
  }

  lemma {:induction false} MaxIndex(ds: seq<Descriptor>, v: seq<DescriptorId>) returns (i: nat)
    requires v != []
    ensures i < |v| && forall j :: 0 <= j < |v| ==> Priority(ds, v[j]) <= Priority(ds, v[i])
  {
    if |v| == 1 {
      i := 0;
    } else {
      var n := |v| - 1;
      i := MaxIndex(ds, v[..n]);
      assert forall j :: 0 <= j < n ==> v[..n][j] == v[j];
      if Priority(ds, v[n]) > Priority(ds, v[i]) {
        i := n;
      }
    }
  }

  function Without(v: seq<DescriptorId>, i: nat): seq<DescriptorId>
    requires i < |v|
  {
    v[..i] + v[i + 1..]
  }

  lemma {:induction false} WithoutContents(v: seq<DescriptorId>, i: nat)
    requires i < |v|
    ensures multiset(v) == multiset(Without(v, i)) + multiset([v[i]])
    ensures forall d :: d in Without(v, i) ==> d in v
  {
    assert v == v[..i] + [v[i]] + v[i + 1..];
  }

  ghost predicate AtLeast(ds: seq<Descriptor>, w: seq<DescriptorId>, d: DescriptorId) {
    forall i :: 0 <= i < |w| ==> Priority(ds, w[i]) >= Priority(ds, d)
  }

  /** Sorting by descending priority; the order of ties is left open, as std::sort leaves it. */
  method SortByPriority(ds: seq<Descriptor>, v: seq<DescriptorId>) returns (w: seq<DescriptorId>)
    ensures Sorted(ds, w) && multiset(w) == multiset(v)
  {
    w := [];
    var rest := v;
    while rest != []
      invariant Sorted(ds, w) && multiset(w) + multiset(rest) == multiset(v)
      invariant forall d :: d in rest ==> AtLeast(ds, w, d)
      decreases |rest|
    {
      ghost var m := MaxIndex(ds, rest);
      var i :| 0 <= i < |rest| && forall j :: 0 <= j < |rest| ==> Priority(ds, rest[j]) <= Priority(ds, rest[i]);
      WithoutContents(rest, i);
      assert AtLeast(ds, w, rest[i]);
      w := w + [rest[i]];
      rest := Without(rest, i);
    }
  }

  class TypeIndex {
    var pending: seq<(Key, DescriptorId)>
    var entries: Entries
    var singleUnnamed: map<TypeId, DescriptorId>
    var finalized: bool

    /** All candidates inserted for the key so far. */
    ghost function Listed(key: Key): multiset<DescriptorId>
      reads this
    {
      multiset(Candidates(entries, key)) + PendingFor(pending, key)
    }

    ghost predicate Valid()
      reads this
    {
      && (finalized ==> pending == [])
      && (forall key :: key in entries ==> entries[key].candidates != [])
    }

    ghost predicate AllPrecomputed(ds: seq<Descriptor>)
      reads this
    {
      && finalized
      && (forall key :: key in entries ==> Precomputed(ds, entries[key]))
      && (forall t: TypeId :: SingleOk(entries, singleUnnamed, t))
    }

    constructor ()
      ensures Valid() && !finalized && entries == map[] && singleUnnamed == map[]
      ensures forall key :: Listed(key) == multiset{}
    {
      pending, entries, singleUnnamed, finalized := [], map[], map[], false;
    }

    /** Before the first sort the candidate is buffered; afterwards it is appended to its list, unsorted. */
    method InsertCandidate(key: Key, d: DescriptorId)
      requires Valid()
      modifies this`pending, this`entries
      ensures Valid()
      ensures Listed(key) == old(Listed(key)) + multiset{d}
      ensures forall k :: k != key ==> Listed(k) == old(Listed(k))
      ensures entries == if finalized then Extended(old(entries), key, d) else old(entries)
    {
      if finalized {
        AppendCandidate(key, d);
      } else {
        ghost var before := pending;
        pending := pending + [(key, d)];
        assert pending[..|pending| - 1] == before;
      }
    }

    method AppendCandidate(key: Key, d: DescriptorId)
      modifies this`entries
      ensures entries == Extended(old(entries), key, d)
      ensures multiset(Candidates(entries, key)) == multiset(Candidates(old(entries), key)) + multiset{d}
      ensures forall k :: k != key ==> Candidates(entries, k) == Candidates(old(entries), k)
    {
      var e := if key in entries then entries[key] else NameEntry([], None, false);
      assert e.candidates + [d] == if key in entries then entries[key].candidates + [d] else [d];
      entries := entries[key := e.(candidates := e.candidates + [d])];
    }

    method UpdateSingleUnnamed(t: TypeId)
      modifies this`singleUnnamed
      ensures SingleOk(entries, singleUnnamed, t)
      ensures forall u: TypeId :: u != t ==>
        (u in singleUnnamed <==> u in old(singleUnnamed)) && (u in singleUnnamed ==> singleUnnamed[u] == old(singleUnnamed)[u])
    {
      var v := Candidates(entries, Key(t, UNNAMED));
      if |v| == 1 {
        singleUnnamed := singleUnnamed[t := v[0]];
      } else {
        singleUnnamed := singleUnnamed - {t};
      }
    }

    /** Moves the buffered candidates into their lists, sorts every list and recomputes everything derived. */
    method SortAllCandidates(ds: seq<Descriptor>)
      requires Valid()
      modifies this
      ensures Valid() && AllPrecomputed(ds)
      ensures forall key :: Listed(key) == old(Listed(key))
    {
      FlushPending();
      var todo := entries.Keys;
      singleUnnamed := map[];
      while todo != {}
        invariant Valid() && pending == [] && todo <= entries.Keys
        invariant forall key :: Listed(key) == old(Listed(key))
        invariant forall key :: key in entries && key !in todo ==> Precomputed(ds, entries[key])
        invariant forall t: TypeId :: if Key(t, UNNAMED) in todo then t !in singleUnnamed else SingleOk(entries, singleUnnamed, t)
        decreases |todo|
      {
        var key :| key in todo;
        SortEntry(ds, key);
        todo := todo - {key};
      }
      finalized := true;
    }

    method FlushPending()
      requires Valid()
      modifies this`pending, this`entries
      ensures Valid() && pending == []
      ensures forall key :: Listed(key) == old(Listed(key))
    {
      while pending != []
        invariant Valid()
        invariant forall key :: Listed(key) == old(Listed(key))
        decreases |pending|
      {
        var (key, d) := pending[|pending| - 1];
        pending := pending[..|pending| - 1];
        AppendCandidate(key, d);
      }
    }

    method SortEntry(ds: seq<Descriptor>, key: Key)
      requires Valid() && key in entries && pending == []
      requires key.name == UNNAMED ==> key.typeId !in singleUnnamed
      modifies this`entries, this`singleUnnamed
      ensures Valid() && entries.Keys == old(entries).Keys && Precomputed(ds, entries[key])
      ensures forall k :: k in entries && k != key ==> entries[k] == old(entries)[k]
      ensures forall k :: Listed(k) == old(Listed(k))
      ensures key.name == UNNAMED ==> SingleOk(entries, singleUnnamed, key.typeId)
      ensures forall u: TypeId :: key != Key(u, UNNAMED) ==>
        (u in singleUnnamed <==> u in old(singleUnnamed)) && (u in singleUnnamed ==> singleUnnamed[u] == old(singleUnnamed)[u])
    {
      var v := SortByPriority(ds, entries[key].candidates);
      assert |v| == |multiset(v)| == |entries[key].candidates|;
      var ambiguous := |v| >= 2 && Priority(ds, v[0]) == Priority(ds, v[1]);
      if key.name == UNNAMED && |v| == 1 && !ambiguous {
        singleUnnamed := singleUnnamed[key.typeId := v[0]];
      }
      entries := entries[key := NameEntry(v, if v == [] then None else Some(v[0]), ambiguous)];
    }
  }
}
