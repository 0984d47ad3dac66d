/**
 Selection by the registry: descriptors, the candidate index, default names,
 and the bindings that add candidates after start.
 */
module Registry {
  import opened Common
  import opened Selection
  import opened TypeIndex

  // --- Default names ---------------------------------------------------------------------

  /** Default names per type; `any` is set with the first default and never cleared. */
  datatype Defaults = Defaults(names: map<TypeId, NameId>, any: bool)

  function DefaultOf(d: Defaults, t: TypeId): NameId {
    if t in d.names then d.names[t] else UNNAMED
  }

  /** A default name is set for the type, and not cleared since. */
  predicate HasDefault(d: Defaults, t: TypeId) {
    t in d.names && d.names[t] != UNNAMED
  }

  ghost predicate DefaultsOk(d: Defaults) {
    !d.any ==> forall t: TypeId :: DefaultOf(d, t) == UNNAMED
  }

  /** A requested name wins, then the default of the scope, then the default of the root. */
  function EffectiveName(name: NameId, t: TypeId, scoped: Option<Defaults>, root: Defaults): NameId {
    if name != UNNAMED then name
    else if scoped.Some? && DefaultOf(scoped.value, t) != UNNAMED then DefaultOf(scoped.value, t)
    else DefaultOf(root, t)
  }

  function WithDefault(d: Defaults, t: TypeId, name: NameId): Defaults {
    Defaults(d.names[t := name], d.any || name != UNNAMED)
  }

  lemma {:induction false} SettingDefaults(d: Defaults, t: TypeId, name: NameId)
    requires DefaultsOk(d)
    ensures DefaultsOk(WithDefault(d, t, name))
    ensures forall u: TypeId :: DefaultOf(WithDefault(d, t, name), u) == if u == t then name else DefaultOf(d, u)
  {
    if name == UNNAMED && !d.any {
      forall u: TypeId
        ensures DefaultOf(WithDefault(d, t, name), u) == UNNAMED
      {
        assert DefaultOf(d, u) == UNNAMED;
      }
    }
  }

  // --- The candidates of a key --------------------------------------------------------------

  function Ids(ds: seq<Descriptor>, key: Key): set<DescriptorId> {
    set d: DescriptorId | 0 <= d < |ds| && ds[d].key == key
  }

  function OneIf(present: bool, d: DescriptorId): multiset<DescriptorId> {
    if present then multiset{d} else multiset{}
  }

  lemma {:induction false} IdsGrow(ds: seq<Descriptor>, x: Descriptor, key: Key)
    ensures multiset(Ids(ds + [x], key)) == multiset(Ids(ds, key)) + OneIf(x.key == key, |ds|)
  {
    assert Ids(ds + [x], key) == Ids(ds, key) + (if x.key == key then {|ds|} else {});
  }

  /** A list with the candidates' multiset lists each of them once. */
  lemma {:induction false} ListsIds(ds: seq<Descriptor>, key: Key, v: seq<DescriptorId>)
    requires multiset(v) == multiset(Ids(ds, key))
    ensures ListsCandidates(ds, key, v)
  {
    forall i, j | 0 <= i < j < |v|
      ensures v[i] != v[j]
    {
      assert v == v[..i] + [v[i]] + v[i + 1..j] + [v[j]] + v[j + 1..];
      assert multiset(v)[v[i]] <= 1;
    }
    forall d: DescriptorId
      ensures d in v <==> IsCandidate(ds, key, d)
    {
      assert d in v <==> d in multiset(v);
      assert d in multiset(Ids(ds, key)) <==> d in Ids(ds, key);
    }
  }

  /** What a lookup makes of an entry: the precomputed head, or the first two of the list. */
  function Lookup(ds: seq<Descriptor>, e: NameEntry): Selected {
    if e.head.Some? then if e.ambiguous then Ambiguous else Winner(e.head.value)
    else if e.candidates == [] then NoCandidate
    else if TopTied(ds, e.candidates) then Ambiguous
    else Winner(e.candidates[0])
  }

  lemma {:induction false} LookupIsSpec(ds: seq<Descriptor>, key: Key, e: NameEntry)
    requires Usable(ds, e) && multiset(e.candidates) == multiset(Ids(ds, key))
    ensures Lookup(ds, e) == Spec(ds, key)
  {
    ListsIds(ds, key, e.candidates);
    SortedListDecides(ds, key, e.candidates);
  }

  /** An entry stays sorted when a descriptor is added that it does not list. */
  lemma {:induction false} PrecomputedStays(ds: seq<Descriptor>, x: Descriptor, key: Key, e: NameEntry)
    requires Precomputed(ds, e) && multiset(e.candidates) == multiset(Ids(ds, key))
    ensures Precomputed(ds + [x], e)
  {
    ListsIds(ds, key, e.candidates);
    forall i | 0 <= i < |e.candidates|
      ensures Priority(ds + [x], e.candidates[i]) == Priority(ds, e.candidates[i])
    {
      assert e.candidates[i] in e.candidates;
    }
  }

  /** The entry as it is when `id` has been appended to a sorted list and nothing recomputed. */
  ghost predicate Unsorted(ds: seq<Descriptor>, e: NameEntry, id: DescriptorId) {
    |e.candidates| >= 2 &&
    var v := e.candidates[..|e.candidates| - 1];
    e.candidates == v + [id] && Precomputed(ds, NameEntry(v, e.head, e.ambiguous))
  }

  lemma {:induction false} Cancel(a: multiset<DescriptorId>, b: multiset<DescriptorId>, x: multiset<DescriptorId>)
    requires a + x == b + x
    ensures a == b
  {
    forall d
      ensures a[d] == b[d]
    {
      assert (a + x)[d] == (b + x)[d];
    }
  }

  /** Lookups between start and the next sort do not see the last descriptor under its own key. */
  lemma {:induction false} UnsortedLookup(all: seq<Descriptor>, key: Key, e: NameEntry)
    requires all != [] && multiset(e.candidates) == multiset(Ids(all, key))
    requires key == all[|all| - 1].key ==> Unsorted(all[..|all| - 1], e, |all| - 1)
    requires key != all[|all| - 1].key ==> Precomputed(all[..|all| - 1], e)
    ensures Lookup(all, e) == if key == all[|all| - 1].key then Spec(all[..|all| - 1], key) else Spec(all, key)
  {
    var n := |all| - 1;
    var ds, x := all[..n], all[n];
    assert ds + [x] == all;
    IdsGrow(ds, x, key);
    if key == x.key {
      var v := e.candidates[..|e.candidates| - 1];
      Cancel(multiset(v), multiset(Ids(ds, key)), OneIf(true, n));
      LookupIsSpec(ds, key, NameEntry(v, e.head, e.ambiguous));
    } else {
      PrecomputedStays(ds, x, key, e);
      LookupIsSpec(all, key, e);
    }
  }

  lemma {:induction false} EntryIffCandidate(ds: seq<Descriptor>, entries: Entries, key: Key)
    requires key in entries ==> entries[key].candidates != []
    requires multiset(Candidates(entries, key)) == multiset(Ids(ds, key))
    ensures key in entries <==> HasCandidate(ds, key)
  {
    var v := Candidates(entries, key);
    ListsIds(ds, key, v);
    if key in entries {
      assert v[0] in v;
    }
  }

  function ContextBean(t: TypeId): Descriptor {
    Descriptor(Key(t, UNNAMED), 0, Singleton, true)
  }

  predicate IsContextBean(x: Descriptor) {
    x == ContextBean(x.key.typeId)
  }

  predicate Taken(ds: seq<Descriptor>, key: Key, priority: int) {
    exists i :: 0 <= i < |ds| && ds[i].key == key && ds[i].priority == priority
  }

  predicate IsSessionBinding(x: Descriptor, key: Key, priority: int) {
    x.key == key && x.priority == priority && x.lifetime == Session && x.runtimeBinding
  }

  predicate HasSessionBinding(ds: seq<Descriptor>, key: Key, priority: int) {
    exists i :: 0 <= i < |ds| && IsSessionBinding(ds[i], key, priority)
  }

  /** The entries after the context bean has been appended to its own, unsorted. */
  lemma {:induction false} ContextEntry(ds: seq<Descriptor>, entries: Entries, contextType: TypeId)
    requires forall key :: key in entries ==> Precomputed(ds, entries[key]) && entries[key].candidates != []
    requires forall key :: multiset(Candidates(entries, key)) == multiset(Ids(ds, key))
    ensures var x := ContextBean(contextType);
      var after := Extended(entries, x.key, |ds|);
      && (ds + [x])[..|ds|] == ds
      && (x.key in entries ==> Unsorted(ds, after[x.key], |ds|))
      && (x.key !in entries ==> forall key :: key in after ==> Usable(ds + [x], after[key]))
  {
    var x := ContextBean(contextType);
    forall key | key in entries
      ensures Precomputed(ds + [x], entries[key])
    {
      assert Candidates(entries, key) == entries[key].candidates;
      PrecomputedStays(ds, x, key, entries[key]);
    }
    if x.key in entries {
      var v := entries[x.key].candidates;
      assert (v + [|ds|])[..|v + [|ds|]| - 1] == v;
    }
  }

  datatype BindResult = Bound(id: DescriptorId) | KeyTaken | ContextForbidden

  /**
   What a registry selects for a key. Until the next sort the last descriptor,
   the context bean, is overlooked under its own key.
   */
  ghost function Selects(ds: seq<Descriptor>, contextUnsorted: bool, key: Key): Selected {
    if contextUnsorted && ds != [] && key == ds[|ds| - 1].key then Spec(ds[..|ds| - 1], key) else Spec(ds, key)
  }

  lemma {:induction false} PendingHasTwo(ds: seq<Descriptor>, v: seq<DescriptorId>)
    requires ContextPending(ds) && ListsCandidates(ds, ds[|ds| - 1].key, v)
    ensures |v| >= 2
  {
    var n, key := |ds| - 1, ds[|ds| - 1].key;
    var d: DescriptorId :| IsCandidate(ds[..n], key, d);
    assert IsCandidate(ds, key, d) && IsCandidate(ds, key, n);
    var i :| 0 <= i < |v| && v[i] == d;
    var j :| 0 <= j < |v| && v[j] == n;
  }

  /** A key with one candidate selects it; the unsorted key of the context bean has more. */
  lemma {:induction false} SingleSelected(ds: seq<Descriptor>, unsorted: bool, key: Key, v: seq<DescriptorId>)
    requires multiset(v) == multiset(Ids(ds, key)) && |v| == 1
    requires unsorted ==> ContextPending(ds)
    ensures Selects(ds, unsorted, key) == Winner(v[0])
  {
    ListsIds(ds, key, v);
    SortedListDecides(ds, key, v);
    if unsorted && key == ds[|ds| - 1].key {
      PendingHasTwo(ds, v);
    }
  }

  /** The descriptors of a started registry whose context bean is listed last, behind other candidates of its key. */
  ghost predicate ContextPending(ds: seq<Descriptor>) {
    ds != [] &&
    var n := |ds| - 1;
    ds[n] == ContextBean(ds[n].key.typeId) && HasCandidate(ds[..n], ds[n].key)
  }

  /** Among the other candidates of the context bean's key one has priority above zero, or two share the top priority zero. */
  ghost predicate ContextOutranked(others: seq<Descriptor>, key: Key) {
    || (exists d: DescriptorId :: IsCandidate(others, key, d) && others[d].priority > 0)
    || (exists d: DescriptorId, e: DescriptorId ::
          d != e && IsTop(others, key, d) && IsTop(others, key, e) && others[d].priority == 0)
  }

  /** What a binding promises at a key: a resolvable key keeps its winner, or gets the new binding when that ranks strictly higher. */
  ghost predicate KeepsPromise(ds: seq<Descriptor>, x: Descriptor, key: Key, before: Selected, after: Selected) {
    before.Winner? ==>
      || after == before
      || (key == x.key && after == Winner(|ds|) && before.id < |ds| && x.priority > ds[before.id].priority)
  }

  /** The exception: under the unsorted key of the context bean a winner of priority at most zero has been selected. */
  ghost predicate LosesToContext(ds: seq<Descriptor>, contextUnsorted: bool, key: Key) {
    contextUnsorted && ds != [] && key == ds[|ds| - 1].key
    && exists w: DescriptorId :: IsOnlyTop(ds[..|ds| - 1], key, w) && ds[w].priority <= 0
  }

  /** The winner so far has this priority. */
  ghost predicate TiesWinner(ds: seq<Descriptor>, key: Key, priority: int) {
    exists w: DescriptorId :: IsOnlyTop(ds, key, w) && ds[w].priority == priority
  }

  /**
   What a binding `x` does at a key. Another key selects as before if and only
   if it is not the unsorted key of the context bean, or the bean does not
   matter there. The promise is kept if and only if the context bean does not
   take over and, at its own key, `x` does not tie with the winner.
   */
  ghost predicate EffectAt(
    ds: seq<Descriptor>, unsorted: bool, x: Descriptor, after: seq<Descriptor>, afterUnsorted: bool, k: Key)
  {
    var was, now := Selects(ds, unsorted, k), Selects(after, afterUnsorted, k);
    && (k != x.key ==>
          (now == was <==> !(unsorted && ds != [] && k == ds[|ds| - 1].key) || ContextOutranked(ds[..|ds| - 1], k)))
    && (KeepsPromise(ds, x, k, was, now) <==>
          !LosesToContext(ds, unsorted, k) && !(k == x.key && TiesWinner(ds, k, x.priority)))
  }

  class Registry {
    const index: TypeIndex
    var descriptors: seq<Descriptor>
    var defaults: Defaults
    var started: bool
    /** The descriptor of the implicit context bean, once there is one. */
    var context: Option<DescriptorId>
    /** The context bean is listed, but its entry has not been sorted since. */
    ghost var contextUnsorted: bool

    /** Every descriptor is listed once under its key. */
    ghost predicate Valid()
      reads this, index
    {
      && index.Valid()
      && DefaultsOk(defaults)
      && (forall key :: index.Listed(key) == multiset(Ids(descriptors, key)))
      && (started <==> context.Some?)
      && (started ==> context.value < |descriptors| && IsContextBean(descriptors[context.value]))
      && (started ==> index.finalized && forall t: TypeId :: SingleOk(index.entries, index.singleUnnamed, t))
      && (!started ==> !index.finalized && index.entries == map[] && !contextUnsorted)
      && (started && !contextUnsorted ==> forall key :: key in index.entries ==> Usable(descriptors, index.entries[key]))
      && (started && contextUnsorted ==> ContextLast())
    }

    /** The state between start and the next binding: all entries are as sorted without the context bean. */
    ghost predicate ContextLast()
      reads this, index
    {
      descriptors != [] &&
      var n := |descriptors| - 1;
      var x := descriptors[n];
      && context == Some(n) && ContextPending(descriptors)
      && x.key in index.entries && index.entries[x.key].candidates != []
      && Unsorted(descriptors[..n], index.entries[x.key], n)
      && forall key :: key in index.entries && key != x.key ==> Precomputed(descriptors[..n], index.entries[key])
    }

    constructor ()
      ensures Valid() && !started && descriptors == [] && fresh(index) && defaults == Defaults(map[], false)
    {
      index := new TypeIndex();
      descriptors, defaults, started, context, contextUnsorted := [], Defaults(map[], false), false, None, false;
      new;
      assert forall key :: Ids([], key) == {};
    }

    /** A descriptor contributed or bound before start. */
    method Contribute(x: Descriptor) returns (id: DescriptorId)
      requires Valid() && !started
      modifies this`descriptors, index
      ensures Valid() && id == |old(descriptors)| && descriptors == old(descriptors) + [x]
    {
      id := |descriptors|;
      Append(x);
    }

    method Append(x: Descriptor)
      requires index.Valid() && forall key :: index.Listed(key) == multiset(Ids(descriptors, key))
      modifies this`descriptors, index`pending, index`entries
      ensures index.Valid() && forall key :: index.Listed(key) == multiset(Ids(descriptors, key))
      ensures descriptors == old(descriptors) + [x]
      ensures index.entries ==
        if index.finalized then Extended(old(index.entries), x.key, |old(descriptors)|) else old(index.entries)
    {
      forall key
        ensures multiset(Ids(descriptors + [x], key))
             == multiset(Ids(descriptors, key)) + OneIf(x.key == key, |descriptors|)
      {
        IdsGrow(descriptors, x, key);
      }
      index.InsertCandidate(x.key, |descriptors|);
      descriptors := descriptors + [x];
    }

    method SetDefault(t: TypeId, name: NameId)
      requires Valid()
      modifies this`defaults
      ensures Valid() && defaults == WithDefault(old(defaults), t, name)
      ensures defaults.names == old(defaults).names[t := name]
    {
      SettingDefaults(defaults, t, name);
      defaults := Defaults(defaults.names[t := name], defaults.any || name != UNNAMED);
    }

    /**
     Sorts all candidates and then registers the context bean under the
     unnamed key of its type, whose entry is not sorted again.
     */
    method Start(contextType: TypeId)
      requires Valid() && !started
      modifies this`descriptors, this`started, this`context, this`contextUnsorted, index
      ensures Valid() && started && context == Some(|old(descriptors)|)
      ensures descriptors == old(descriptors) + [ContextBean(contextType)]
      ensures contextUnsorted <==> HasCandidate(old(descriptors), Key(contextType, UNNAMED))
    {
      index.SortAllCandidates(descriptors);
      RegisterContextBean(contextType);
      started := true;
    }

    method RegisterContextBean(contextType: TypeId)
      requires index.Valid() && index.AllPrecomputed(descriptors)
      requires forall key :: index.Listed(key) == multiset(Ids(descriptors, key))
      modifies this`descriptors, this`context, this`contextUnsorted, index
      ensures index.Valid() && index.finalized
      ensures forall key :: index.Listed(key) == multiset(Ids(descriptors, key))
      ensures forall t: TypeId :: SingleOk(index.entries, index.singleUnnamed, t)
      ensures descriptors == old(descriptors) + [ContextBean(contextType)] && context == Some(|old(descriptors)|)
      ensures contextUnsorted <==> HasCandidate(old(descriptors), Key(contextType, UNNAMED))
      ensures contextUnsorted ==> ContextLast()
      ensures !contextUnsorted ==> forall key :: key in index.entries ==> Usable(descriptors, index.entries[key])
    {
      ghost var ds, es := descriptors, index.entries;
      var x := ContextBean(contextType);
      EntryIffCandidate(ds, es, x.key);
      ContextEntry(ds, es, contextType);
      contextUnsorted := x.key in es;
      context := Some(|descriptors|);
      AppendUnnamed(x);
    }

    /** Appends a candidate of an unnamed key and refreshes the shortcut of its type. */
    method AppendUnnamed(x: Descriptor)
      requires index.Valid() && index.finalized && x.key.name == UNNAMED
      requires forall key :: index.Listed(key) == multiset(Ids(descriptors, key))
      requires forall t: TypeId :: SingleOk(index.entries, index.singleUnnamed, t)
      modifies this`descriptors, index
      ensures index.Valid() && index.finalized
      ensures forall key :: index.Listed(key) == multiset(Ids(descriptors, key))
      ensures forall t: TypeId :: SingleOk(index.entries, index.singleUnnamed, t)
      ensures descriptors == old(descriptors) + [x]
      ensures index.entries == Extended(old(index.entries), x.key, |old(descriptors)|)
    {
      ghost var es, singles := index.entries, index.singleUnnamed;
      Append(x);
      index.UpdateSingleUnnamed(x.key.typeId);
      forall t: TypeId | t != x.key.typeId
        ensures SingleOk(index.entries, index.singleUnnamed, t)
      {
        assert SingleOk(es, singles, t);
        assert Candidates(index.entries, Key(t, UNNAMED)) == Candidates(es, Key(t, UNNAMED));
      }
    }

    /**
     Selection for a request: under the requested name, else the default of the
     scope, else the default of the root, else no name; through the shortcut for
     the single unnamed candidate, the precomputed head or the candidate list.
     Under the unsorted key of the context bean, the bean is overlooked.
     */
    method Select(t: TypeId, name: NameId, scoped: Option<Defaults>) returns (r: Selected)
      requires Valid() && started && (scoped.Some? ==> DefaultsOk(scoped.value))
      ensures name != UNNAMED ==> r == Selects(descriptors, contextUnsorted, Key(t, name))
      ensures name == UNNAMED && scoped.Some? && HasDefault(scoped.value, t) ==>
        r == Selects(descriptors, contextUnsorted, Key(t, scoped.value.names[t]))
      ensures name == UNNAMED && !(scoped.Some? && HasDefault(scoped.value, t)) && HasDefault(defaults, t) ==>
        r == Selects(descriptors, contextUnsorted, Key(t, defaults.names[t]))
      ensures name == UNNAMED && !(scoped.Some? && HasDefault(scoped.value, t)) && !HasDefault(defaults, t) ==>
        r == Selects(descriptors, contextUnsorted, Key(t, UNNAMED))
    {
      var effective := NameToUse(t, name, scoped);
      var key := Key(t, effective);
      if effective == UNNAMED && t in index.singleUnnamed {
        SingleDecides(t, index.singleUnnamed[t]);
        return Winner(index.singleUnnamed[t]);
      }
      if key !in index.entries {
        NoEntry(key);
        return NoCandidate;
      }
      KeyDecides(key);
      r := LookupEntry(index.entries[key]);
    }

    method NameToUse(t: TypeId, name: NameId, scoped: Option<Defaults>) returns (effective: NameId)
      requires DefaultsOk(defaults) && (scoped.Some? ==> DefaultsOk(scoped.value))
      ensures effective == EffectiveName(name, t, scoped, defaults)
    {
      effective := name;
      if name == UNNAMED {
        if scoped.Some? && scoped.value.any {
          effective := DefaultOf(scoped.value, t);
        }
        if effective == UNNAMED && defaults.any {
          effective := DefaultOf(defaults, t);
        }
      }
    }

    method LookupEntry(e: NameEntry) returns (r: Selected)
      ensures r == Lookup(descriptors, e)
    {
      if e.head.None? {
        if e.candidates == [] {
          return NoCandidate;
        }
        if |e.candidates| >= 2 && Priority(descriptors, e.candidates[0]) == Priority(descriptors, e.candidates[1]) {
          return Ambiguous;
        }
        return Winner(e.candidates[0]);
      }
      if e.ambiguous {
        return Ambiguous;
      }
      r := Winner(e.head.value);
    }

    ghost method SingleDecides(t: TypeId, d: DescriptorId)
      requires Valid() && started && t in index.singleUnnamed && d == index.singleUnnamed[t]
      ensures Selects(descriptors, contextUnsorted, Key(t, UNNAMED)) == Winner(d)
    {
      var key := Key(t, UNNAMED);
      assert SingleOk(index.entries, index.singleUnnamed, t);
      assert index.Listed(key) == multiset(Ids(descriptors, key));
      SingleSelected(descriptors, contextUnsorted, key, Candidates(index.entries, key));
    }

    ghost method NoEntry(key: Key)
      requires Valid() && started && key !in index.entries
      ensures Selects(descriptors, contextUnsorted, key) == NoCandidate
    {
      assert index.Listed(key) == multiset(Ids(descriptors, key));
      EntryIffCandidate(descriptors, index.entries, key);
      SpecMeans(descriptors, key, NoCandidate);
    }

    ghost method KeyDecides(key: Key)
      requires Valid() && started && key in index.entries
      ensures Lookup(descriptors, index.entries[key]) == Selects(descriptors, contextUnsorted, key)
    {
      assert index.Listed(key) == multiset(Ids(descriptors, key));
      if contextUnsorted {
        UnsortedLookup(descriptors, key, index.entries[key]);
      } else {
        LookupIsSpec(descriptors, key, index.entries[key]);
      }
    }

    // --- Bindings after start ---------------------------------------------------------------

    method CandidateKeyExists(key: Key, priority: int) returns (found: bool)
      ensures found <==> Taken(descriptors, key, priority)
      ensures found <==> exists d :: 0 <= d < |descriptors| && descriptors[d].key == key && descriptors[d].priority == priority
    {
      for i := 0 to |descriptors|
        invariant forall j :: 0 <= j < i ==> descriptors[j].key != key || descriptors[j].priority != priority
      {
        if descriptors[i].key == key && descriptors[i].priority == priority {
          return true;
        }
      }
      found := false;
    }

    /** Appends the descriptor and sorts every candidate list again, the context bean's included. */
    method AddCandidate(x: Descriptor) returns (id: DescriptorId)
      requires Valid() && started
      modifies this`descriptors, this`contextUnsorted, index
      ensures Valid() && !contextUnsorted
      ensures id == |old(descriptors)| && descriptors == old(descriptors) + [x]
    {
      id := |descriptors|;
      Append(x);
      contextUnsorted := false;
      index.SortAllCandidates(descriptors);
      ghost var singles := index.singleUnnamed;
      index.UpdateSingleUnnamed(x.key.typeId);
      forall t: TypeId
        ensures SingleOk(index.entries, index.singleUnnamed, t)
      {
        assert SingleOk(index.entries, singles, t);
      }
    }

    /** The part that both bindings share: the new candidate, and what it changes at every key. */
    method BindNew(x: Descriptor) returns (id: DescriptorId)
      requires Valid() && started && x.key.typeId != descriptors[context.value].key.typeId
      modifies this`descriptors, this`contextUnsorted, index
      ensures Valid() && !contextUnsorted
      ensures id == |old(descriptors)| && descriptors == old(descriptors) + [x]
      ensures forall k: Key :: EffectAt(old(descriptors), old(contextUnsorted), x, descriptors, contextUnsorted, k)
    {
      ghost var ds, unsorted := descriptors, contextUnsorted;
      id := AddCandidate(x);
      forall k: Key {
        BindEffect(ds, unsorted, x, k);
      }
    }

    /**
     Refused for the context type, and if and only if some descriptor of the
     same key has the same priority. A successful bind changes what is selected
     under another key if and only if the context bean's key had not been
     sorted and the bean does matter there; the promise to resolvable keys is
     broken exactly where the context bean takes over.
     */
    method BindSingleton(key: Key, priority: int) returns (r: BindResult)
      requires Valid() && started
      modifies this`descriptors, this`contextUnsorted, index
      ensures Valid()
      ensures r == ContextForbidden <==> key.typeId == old(descriptors)[context.value].key.typeId
      ensures r == KeyTaken <==> r != ContextForbidden && Taken(old(descriptors), key, priority)
      ensures r == KeyTaken <==> r != ContextForbidden && exists d ::
        0 <= d < |old(descriptors)| && old(descriptors)[d].key == key && old(descriptors)[d].priority == priority
      ensures !r.Bound? ==> descriptors == old(descriptors) && contextUnsorted == old(contextUnsorted)
      ensures r.Bound? ==>
        && r.id == |old(descriptors)| && descriptors == old(descriptors) + [Descriptor(key, priority, Singleton, true)]
        && !contextUnsorted && !TiesWinner(old(descriptors), key, priority)
      ensures r.Bound? ==> forall k: Key ::
        EffectAt(old(descriptors), old(contextUnsorted), Descriptor(key, priority, Singleton, true),
          descriptors, contextUnsorted, k)
    {
      if key.typeId == descriptors[context.value].key.typeId {
        return ContextForbidden;
      }
      var found := CandidateKeyExists(key, priority);
      if found {
        return KeyTaken;
      }
      var id := BindNew(Descriptor(key, priority, Singleton, true));
      r := Bound(id);
    }

    /**
     Reuses the session binding of the same key and priority, and makes one if
     there is none. A new one has the same effect on other keys; under its own
     key it breaks the promise exactly when the winner so far has its priority.
     */
    method SessionBinding(key: Key, priority: int) returns (r: BindResult)
      requires Valid() && started
      modifies this`descriptors, this`contextUnsorted, index
      ensures Valid() && r != KeyTaken
      ensures r == ContextForbidden <==> key.typeId == old(descriptors)[context.value].key.typeId
      ensures !r.Bound? || old(HasSessionBinding(descriptors, key, priority)) ==>
        descriptors == old(descriptors) && contextUnsorted == old(contextUnsorted)
      ensures r.Bound? ==> (descriptors == old(descriptors) <==> exists d ::
        && 0 <= d < |old(descriptors)| && old(descriptors)[d].key == key && old(descriptors)[d].priority == priority
        && old(descriptors)[d].lifetime == Session && old(descriptors)[d].runtimeBinding)
      ensures r.Bound? && old(HasSessionBinding(descriptors, key, priority)) ==>
        r.id < |descriptors| && IsSessionBinding(descriptors[r.id], key, priority)
      ensures r.Bound? && !old(HasSessionBinding(descriptors, key, priority)) ==>
        && r.id == |old(descriptors)| && descriptors == old(descriptors) + [Descriptor(key, priority, Session, true)]
        && !contextUnsorted
      ensures r.Bound? && !old(HasSessionBinding(descriptors, key, priority)) ==> forall k: Key ::
        EffectAt(old(descriptors), old(contextUnsorted), Descriptor(key, priority, Session, true),
          descriptors, contextUnsorted, k)
    {
      if key.typeId == descriptors[context.value].key.typeId {
        return ContextForbidden;
      }
      assert index.Listed(key) == multiset(Ids(descriptors, key));
      var reusable := FindSessionBinding(key, priority);
      if reusable.Some? {
        return Bound(reusable.value);
      }
      var id := BindNew(Descriptor(key, priority, Session, true));
      r := Bound(id);
    }

    method FindSessionBinding(key: Key, priority: int) returns (id: Option<DescriptorId>)
      requires multiset(Candidates(index.entries, key)) == multiset(Ids(descriptors, key))
      ensures id.None? <==> !HasSessionBinding(descriptors, key, priority)
      ensures id.Some? ==> id.value < |descriptors| && IsSessionBinding(descriptors[id.value], key, priority)
    {
      var v := Candidates(index.entries, key);
      ListsIds(descriptors, key, v);
      for i := 0 to |v|
        invariant forall j :: 0 <= j < i ==> v[j] < |descriptors| && !IsSessionBinding(descriptors[v[j]], key, priority)
      {
        assert v[i] in v && IsCandidate(descriptors, key, v[i]);
        var x := descriptors[v[i]];
        if x.runtimeBinding && x.lifetime == Session && x.priority == priority {
          return Some(v[i]);
        }
      }
      forall d: DescriptorId | d < |descriptors|
        ensures !IsSessionBinding(descriptors[d], key, priority)
      {
        assert IsCandidate(descriptors, key, d) ==> d in v;
      }
      id := None;
    }
  }

  // --- What the bindings mean for selection ------------------------------------------------

  /** Adding a candidate, at its own key: the promise is broken exactly by a tie with the winner. */
  lemma {:induction false} OwnKeyPromise(ds: seq<Descriptor>, x: Descriptor)
    ensures KeepsPromise(ds, x, x.key, Spec(ds, x.key), Spec(ds + [x], x.key)) <==> !TiesWinner(ds, x.key, x.priority)
  {
    OneMore(ds, x, x.key);
    SpecMeans(ds, x.key, Spec(ds, x.key));
    if Spec(ds, x.key).Winner? {
      var w := Spec(ds, x.key).id;
      assert IsOnlyTop(ds, x.key, w);
      assert forall v: DescriptorId :: IsOnlyTop(ds, x.key, v) ==> v == w;
      assert forall v: DescriptorId :: IsTop(ds, x.key, v) ==> v == w;
    } else {
      assert forall v: DescriptorId :: !IsOnlyTop(ds, x.key, v) by {
        forall v: DescriptorId
          ensures !IsOnlyTop(ds, x.key, v)
        {
          SpecMeans(ds, x.key, Winner(v));
        }
      }
    }
  }

  /** The descriptors with which a key is selected before the sort. */
  lemma {:induction false} ContextTakesOver(ds: seq<Descriptor>, key: Key, x: Descriptor)
    requires ContextPending(ds) && key == ds[|ds| - 1].key && x.key != key
    ensures var others := ds[..|ds| - 1];
      && (Spec(others, key) == Spec(ds, key) <==> ContextOutranked(others, key))
      && (KeepsPromise(ds, x, key, Spec(others, key), Spec(ds, key)) <==> !LosesToContext(ds, true, key))
  {
    var n := |ds| - 1;
    var others, c := ds[..n], ds[n];
    assert others + [c] == ds;
    ContextKeyIsRightIff(others, key.typeId);
    SpecMeans(others, key, Spec(others, key));
    OneMore(others, c, key);
    if Spec(others, key).Winner? {
      var w := Spec(others, key).id;
      assert IsOnlyTop(others, key, w) && others[w] == ds[w];
      assert forall v: DescriptorId :: IsTop(others, key, v) ==> v == w;
    } else {
      forall v: DescriptorId
        ensures !IsOnlyTop(others, key, v)
      {
        SpecMeans(others, key, Winner(v));
      }
    }
  }

  /** What a new descriptor that is not of the context type changes at each key. */
  lemma {:induction false} BindEffect(ds: seq<Descriptor>, unsorted: bool, x: Descriptor, k: Key)
    requires unsorted ==> ContextPending(ds) && x.key != ds[|ds| - 1].key
    ensures EffectAt(ds, unsorted, x, ds + [x], false, k)
  {
    if k == x.key {
      OwnKeyPromise(ds, x);
    } else {
      OneMore(ds, x, k);
      if unsorted && k == ds[|ds| - 1].key {
        ContextTakesOver(ds, k, x);
      }
    }
  }

  /**
   A successful bindSingleton never makes a key unresolvable, and changes the
   winner only to itself, from one of strictly lower priority.
   */
  lemma {:induction false} BindNeverCreatesAmbiguity(ds: seq<Descriptor>, x: Descriptor, key: Key)
    requires !Taken(ds, x.key, x.priority)
    ensures key != x.key ==> Spec(ds + [x], key) == Spec(ds, key)
    ensures Spec(ds, key).Winner? ==>
      var w := Spec(ds, key).id;
      Spec(ds + [x], key) == if key == x.key && x.priority > ds[w].priority then Winner(|ds|) else Winner(w)
    ensures Spec(ds, key) == NoCandidate ==> Spec(ds + [x], key) == if key == x.key then Winner(|ds|) else NoCandidate
    ensures Spec(ds, key) == Ambiguous ==> Spec(ds + [x], key) != NoCandidate
  {
    OneMore(ds, x, key);
    SpecMeans(ds, key, Spec(ds, key));
  }

  /**
   bindSession does not look for other candidates of its priority: it turns a
   resolvable key ambiguous exactly when the winner so far has that priority.
   */
  lemma {:induction false} SessionBindingAmbiguousIff(ds: seq<Descriptor>, x: Descriptor, w: DescriptorId)
    requires Spec(ds, x.key) == Winner(w)
    ensures w < |ds|
    ensures Spec(ds + [x], x.key) == Ambiguous <==> ds[w].priority == x.priority
    ensures ds[w].priority != x.priority ==>
      Spec(ds + [x], x.key) == if x.priority > ds[w].priority then Winner(|ds|) else Winner(w)
  {
    OneMore(ds, x, x.key);
    SpecMeans(ds, x.key, Winner(w));
  }

  /** A singleton and a session binding of one key and priority: the key could be resolved, and cannot afterwards. */
  lemma {:induction false} SessionBindingCounterexample(key: Key)
    ensures var ds := [Descriptor(key, 0, Singleton, true)];
      Spec(ds, key) == Winner(0) && !HasSessionBinding(ds, key, 0)
      && Spec(ds + [Descriptor(key, 0, Session, true)], key) == Ambiguous
  {
    var x := Descriptor(key, 0, Singleton, true);
    var none: seq<Descriptor> := [];
    SpecMeans(none, key, NoCandidate);
    OneMore(none, x, key);
    assert none + [x] == [x];
    SessionBindingAmbiguousIff([x], Descriptor(key, 0, Session, true), 0);
  }

  /**
   The key of the context bean, before any later binding sorts it in: with
   other candidates, selection meets the specification if and only if one of
   them has a priority above zero, or two share the top priority zero.
   */
  lemma {:induction false} ContextKeyIsRightIff(ds: seq<Descriptor>, contextType: TypeId)
    requires HasCandidate(ds, Key(contextType, UNNAMED))
    ensures var key := Key(contextType, UNNAMED);
      Spec(ds, key) == Spec(ds + [ContextBean(contextType)], key) <==> ContextOutranked(ds, key)
  {
    var key, x := Key(contextType, UNNAMED), ContextBean(contextType);
    SpecMeans(ds, key, Spec(ds, key));
    OneMore(ds, x, key);
    assert ds[..|ds|] == ds;
    var d: DescriptorId :| IsTop(ds, key, d) && Spec(ds + [x], key) ==
      if 0 > ds[d].priority then Winner(|ds|) else if 0 == ds[d].priority then Ambiguous else Spec(ds, key);
    assert Spec(ds, key) != Winner(|ds|);
  }

  /** A bean of negative priority exposed as the context type hides the context bean, which should win. */
  lemma {:induction false} ContextKeyCounterexample(contextType: TypeId)
    ensures var key := Key(contextType, UNNAMED);
      var ds := [Descriptor(key, -1, Singleton, false)];
      Spec(ds, key) == Winner(0) && Spec(ds + [ContextBean(contextType)], key) == Winner(1)
  {
    var key := Key(contextType, UNNAMED);
    var none: seq<Descriptor> := [];
    var x := Descriptor(key, -1, Singleton, false);
    SpecMeans(none, key, NoCandidate);
    OneMore(none, x, key);
    assert none + [x] == [x];
    OneMore([x], ContextBean(contextType), key);
  }

  /** What is selected under the context type's key with one contributed bean, and after one more unrelated descriptor. */
  lemma {:induction false} DisturbedSelections(contextType: TypeId, priority: int, x: Descriptor)
    requires priority <= 0 && x.key.typeId != contextType
    ensures var key := Key(contextType, UNNAMED);
      var ds := [Descriptor(key, priority, Singleton, false), ContextBean(contextType)];
      && Selects(ds, true, key) == Winner(0)
      && Selects(ds + [x], false, key) == (if priority == 0 then Ambiguous else Winner(1))
      && !Taken(ds, x.key, x.priority) && !HasSessionBinding(ds, x.key, x.priority)
  {
    var key := Key(contextType, UNNAMED);
    var first := Descriptor(key, priority, Singleton, false);
    var none: seq<Descriptor> := [];
    var ds := [first, ContextBean(contextType)];
    assert ds[..1] == [first] && IsCandidate([first], key, 0);
    SpecMeans(none, key, NoCandidate);
    OneMore(none, first, key);
    assert none + [first] == [first] && [first] + [ContextBean(contextType)] == ds;
    OneMore([first], ContextBean(contextType), key);
    OneMore(ds, x, key);
  }

  method ContextRegistry(contextType: TypeId, priority: int) returns (registry: Registry)
    ensures fresh(registry) && fresh(registry.index) && registry.Valid() && registry.started
    ensures registry.defaults == Defaults(map[], false) && registry.context == Some(1)
    ensures registry.descriptors == [Descriptor(Key(contextType, UNNAMED), priority, Singleton, false), ContextBean(contextType)]
    ensures registry.contextUnsorted
  {
    registry := new Registry();
    var id := registry.Contribute(Descriptor(Key(contextType, UNNAMED), priority, Singleton, false));
    assert registry.descriptors == [Descriptor(Key(contextType, UNNAMED), priority, Singleton, false)];
    assert IsCandidate(registry.descriptors, Key(contextType, UNNAMED), 0);
    registry.Start(contextType);
  }

  /**
   The exception occurs: a bean of priority at most zero is exposed as the
   context type, and binding an unrelated type changes what that key gives.
   */
  method UnrelatedBindDisturbs(contextType: TypeId, priority: int, key: Key)
    returns (before: Selected, bound: BindResult, after: Selected)
    requires priority <= 0 && key.typeId != contextType
    ensures before == Winner(0) && bound.Bound?
    ensures after == if priority == 0 then Ambiguous else Winner(1)
  {
    var registry := ContextRegistry(contextType, priority);
    DisturbedSelections(contextType, priority, Descriptor(key, 0, Singleton, true));
    before := registry.Select(contextType, UNNAMED, None);
    bound := registry.BindSingleton(key, 0);
    after := registry.Select(contextType, UNNAMED, None);
  }

  /** So does binding a session bean of an unrelated type. */
  method UnrelatedSessionDisturbs(contextType: TypeId, priority: int, key: Key)
    returns (before: Selected, bound: BindResult, after: Selected)
    requires priority <= 0 && key.typeId != contextType
    ensures before == Winner(0) && bound.Bound?
    ensures after == if priority == 0 then Ambiguous else Winner(1)
  {
    var registry := ContextRegistry(contextType, priority);
    DisturbedSelections(contextType, priority, Descriptor(key, 0, Session, true));
    before := registry.Select(contextType, UNNAMED, None);
    bound := registry.SessionBinding(key, 0);
    after := registry.Select(contextType, UNNAMED, None);
  }
}
