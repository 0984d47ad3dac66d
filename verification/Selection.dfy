/**
 What a resolution is supposed to select: the candidate of unique highest
 priority among all descriptors of the requested type and name.
 */
module Selection {
  type TypeId = nat
  type NameId = nat
  type DescriptorId = nat

  // kUnnamed
  const UNNAMED: NameId := 0

  datatype Key = Key(typeId: TypeId, name: NameId)

  datatype Lifetime = Singleton | Prototype | Session | ThreadLocal

  datatype Descriptor = Descriptor(key: Key, priority: int, lifetime: Lifetime, runtimeBinding: bool)

  datatype Selected = NoCandidate | Winner(id: DescriptorId) | Ambiguous

  predicate IsCandidate(ds: seq<Descriptor>, key: Key, d: DescriptorId) {
    d < |ds| && ds[d].key == key
  }

  ghost predicate HasCandidate(ds: seq<Descriptor>, key: Key) {
    exists d: DescriptorId :: IsCandidate(ds, key, d)
  }

  ghost predicate IsTop(ds: seq<Descriptor>, key: Key, d: DescriptorId) {
    IsCandidate(ds, key, d)
    && forall e: DescriptorId :: IsCandidate(ds, key, e) ==> ds[e].priority <= ds[d].priority
  }

  ghost predicate IsOnlyTop(ds: seq<Descriptor>, key: Key, d: DescriptorId) {
    IsCandidate(ds, key, d)
    && forall e: DescriptorId :: IsCandidate(ds, key, e) && e != d ==> ds[e].priority < ds[d].priority
  }

  ghost function Spec(ds: seq<Descriptor>, key: Key): Selected {
    if exists d: DescriptorId :: IsOnlyTop(ds, key, d) then
      var d: DescriptorId :| IsOnlyTop(ds, key, d);
      Winner(d)
    else if HasCandidate(ds, key) then Ambiguous
    else NoCandidate
  }

  /** The candidates of a key, as a list sorted by priority tells the selection. */
  function Priority(ds: seq<Descriptor>, d: DescriptorId): int {
    if d < |ds| then ds[d].priority else 0
  }

  ghost predicate Sorted(ds: seq<Descriptor>, v: seq<DescriptorId>) {
    forall i, j :: 0 <= i < j < |v| ==> Priority(ds, v[i]) >= Priority(ds, v[j])
  }

  predicate TopTied(ds: seq<Descriptor>, v: seq<DescriptorId>) {
    |v| >= 2 && Priority(ds, v[0]) == Priority(ds, v[1])
  }

  /** The list holds every candidate of the key, once. */
  ghost predicate ListsCandidates(ds: seq<Descriptor>, key: Key, v: seq<DescriptorId>) {
    && (forall i, j :: 0 <= i < j < |v| ==> v[i] != v[j])
    && (forall d: DescriptorId :: d in v <==> IsCandidate(ds, key, d))
  }

  /** Whatever order ties are in, the first two entries of a sorted list decide. */
  lemma {:induction false} SortedListDecides(ds: seq<Descriptor>, key: Key, v: seq<DescriptorId>)
    requires ListsCandidates(ds, key, v) && Sorted(ds, v)
    ensures Spec(ds, key) == if v == [] then NoCandidate else if TopTied(ds, v) then Ambiguous else Winner(v[0])
  {
    if v != [] {
      assert IsCandidate(ds, key, v[0]);
      if TopTied(ds, v) {
        assert IsCandidate(ds, key, v[1]);
        forall d: DescriptorId
          ensures !IsOnlyTop(ds, key, d)
        {
          if IsCandidate(ds, key, d) {
            var i :| 0 <= i < |v| && v[i] == d;
            assert Priority(ds, v[i]) <= Priority(ds, v[0]);
          }
        }
      } else {
        forall e: DescriptorId | IsCandidate(ds, key, e) && e != v[0]
          ensures ds[e].priority < ds[v[0]].priority
        {
          var i :| 0 <= i < |v| && v[i] == e;
          assert Priority(ds, v[1]) >= Priority(ds, e);
        }
        assert IsOnlyTop(ds, key, v[0]);
      }
    }
  }

  // --- One more candidate --------------------------------------------------------------

  lemma {:induction false} TopExists(ds: seq<Descriptor>, key: Key, n: nat) returns (d: DescriptorId)
    requires n <= |ds| && exists e: DescriptorId :: IsCandidate(ds[..n], key, e)
    ensures IsTop(ds[..n], key, d)
    decreases n
  {
    var e: DescriptorId :| IsCandidate(ds[..n], key, e);
    var prefix := ds[..n - 1];
    if before: DescriptorId :| IsCandidate(prefix, key, before) {
      d := TopExists(ds, key, n - 1);
      assert forall x: DescriptorId :: IsCandidate(ds[..n], key, x) && x < n - 1 ==> IsCandidate(prefix, key, x);
      if ds[n - 1].key == key && ds[n - 1].priority > ds[d].priority {
        d := n - 1;
      }
    } else {
      d := e;
      forall x: DescriptorId | IsCandidate(ds[..n], key, x)
        ensures x == n - 1
      {
        if x < n - 1 {
          assert IsCandidate(prefix, key, x);
        }
      }
    }
  }

  /** The selection named by its meaning: both directions. */
  lemma {:induction false} SpecMeans(ds: seq<Descriptor>, key: Key, r: Selected)
    ensures Spec(ds, key) == r <==>
      match r
      case NoCandidate => !HasCandidate(ds, key)
      case Winner(d) => IsOnlyTop(ds, key, d)
      case Ambiguous => exists d: DescriptorId, e: DescriptorId :: d != e && IsTop(ds, key, d) && IsTop(ds, key, e)
  {
    forall d: DescriptorId, e: DescriptorId | IsOnlyTop(ds, key, d) && IsTop(ds, key, e)
      ensures d == e
    {
    }
    forall d: DescriptorId | IsOnlyTop(ds, key, d)
      ensures IsTop(ds, key, d)
    {
    }
    if HasCandidate(ds, key) {
      assert ds[..|ds|] == ds;
      var d := TopExists(ds, key, |ds|);
      if !IsOnlyTop(ds, key, d) {
        var e: DescriptorId :| IsCandidate(ds, key, e) && e != d && ds[e].priority >= ds[d].priority;
        assert IsTop(ds, key, e);
      }
    }
  }

  /** What one more descriptor changes: nothing for other keys, and for its own key what the priorities say. */
  lemma {:induction false} OneMore(ds: seq<Descriptor>, x: Descriptor, key: Key)
    ensures x.key != key ==> Spec(ds + [x], key) == Spec(ds, key)
    ensures x.key == key && Spec(ds, key) == NoCandidate ==> Spec(ds + [x], key) == Winner(|ds|)
    ensures x.key == key && Spec(ds, key) != NoCandidate ==>
      exists d: DescriptorId :: IsTop(ds, key, d) &&
        Spec(ds + [x], key) ==
          if x.priority > ds[d].priority then Winner(|ds|)
          else if x.priority == ds[d].priority then Ambiguous
          else Spec(ds, key)
  {
    var all := ds + [x];
    SpecMeans(ds, key, Spec(ds, key));
    SpecMeans(all, key, NoCandidate);
    forall d: DescriptorId
      ensures IsCandidate(all, key, d) <==> IsCandidate(ds, key, d) || (d == |ds| && x.key == key)
    {
    }
    if x.key != key {
      SameSelection(ds, all, key);
    } else if Spec(ds, key) == NoCandidate {
      SpecMeans(all, key, Winner(|ds|));
    } else {
      assert ds[..|ds|] == ds;
      var d := TopExists(ds, key, |ds|);
      if x.priority > ds[d].priority {
        SpecMeans(all, key, Winner(|ds|));
      } else if x.priority == ds[d].priority {
        assert IsTop(all, key, d) && IsTop(all, key, |ds|);
        SpecMeans(all, key, Ambiguous);
      } else {
        LowerChangesNothing(ds, x, key, d);
      }
    }
  }

  lemma {:induction false} SameSelection(ds: seq<Descriptor>, all: seq<Descriptor>, key: Key)
    requires |ds| <= |all| && all[..|ds|] == ds
    requires forall d: DescriptorId :: IsCandidate(all, key, d) <==> IsCandidate(ds, key, d)
    ensures Spec(all, key) == Spec(ds, key)
  {
    SpecMeans(ds, key, Spec(ds, key));
    SpecMeans(all, key, Spec(ds, key));
    forall d: DescriptorId
      ensures IsOnlyTop(all, key, d) <==> IsOnlyTop(ds, key, d)
      ensures IsTop(all, key, d) <==> IsTop(ds, key, d)
    {
      KeepsPriorities(ds, all, key, d);
    }
  }

  lemma {:induction false} KeepsPriorities(ds: seq<Descriptor>, all: seq<Descriptor>, key: Key, d: DescriptorId)
    requires |ds| <= |all| && all[..|ds|] == ds
    requires forall d: DescriptorId :: IsCandidate(all, key, d) <==> IsCandidate(ds, key, d)
    ensures IsOnlyTop(all, key, d) <==> IsOnlyTop(ds, key, d)
    ensures IsTop(all, key, d) <==> IsTop(ds, key, d)
  {
    forall e: DescriptorId | IsCandidate(ds, key, e)
      ensures all[e] == ds[e]
    {
      assert all[..|ds|][e] == all[e];
    }
  }

  lemma {:induction false} LowerChangesNothing(ds: seq<Descriptor>, x: Descriptor, key: Key, d: DescriptorId)
    requires x.key == key && IsTop(ds, key, d) && x.priority < ds[d].priority
    ensures Spec(ds + [x], key) == Spec(ds, key)
  {
    var all := ds + [x];
    SpecMeans(ds, key, Spec(ds, key));
    SpecMeans(all, key, Spec(ds, key));
    forall e: DescriptorId
      ensures IsTop(all, key, e) <==> IsTop(ds, key, e)
      ensures IsOnlyTop(all, key, e) <==> IsOnlyTop(ds, key, e)
    {
      assert IsCandidate(all, key, d);
      assert forall y: DescriptorId :: IsCandidate(all, key, y) <==> IsCandidate(ds, key, y) || y == |ds|;
    }
  }
}
