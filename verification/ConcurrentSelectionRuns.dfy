/**
 What selections give over every run of selections without a lock and bindings
 after start, and runs in which they give something else than they should.
 */
module ConcurrentSelectionRuns {
  import opened Common
  import opened Selection
  import opened TypeIndex
  import opened ConcurrentSelection
  import R = Registry

  // --- Runs ---------------------------------------------------------------------------------------

  datatype Step = ReaderStep(token: Token, action: Action) | BinderStep(binding: BinderAction)

  ghost predicate Next(s: State, step: Step, s': State) {
    match step
    case ReaderStep(t, a) =>
      t in s.readers && Enabled(s.index, s.readers[t], a)
      && s' == s.(readers := s.readers[t := Moved(s.index, s.readers[t], a)])
    case BinderStep(a) => BinderEnabled(s.index, a) && s' == s.(index := BinderApply(s.index, a))
  }

  ghost predicate Run(states: seq<State>, steps: seq<Step>) {
    |states| == |steps| + 1 && forall i :: 0 <= i < |steps| ==> Next(states[i], steps[i], states[i + 1])
  }

  /** Sorted lists of all contributed candidates, before the context bean is added. */
  ghost predicate SortedIndex(ds: seq<Descriptor>, entries: Entries) {
    && (forall k :: k in entries ==> Precomputed(ds, entries[k]) && entries[k].candidates != [])
    && (forall k :: multiset(Candidates(entries, k)) == multiset(R.Ids(ds, k)))
  }

  /** What start leaves: the context bean is appended to its list, which is not sorted again. */
  ghost predicate Started(s: Index, contributed: Entries) {
    && s.ds != [] && s.base == |s.ds| && s.binder == Free && R.IsContextBean(s.ds[s.base - 1])
    && SortedIndex(s.ds[..s.base - 1], contributed)
    && s.entries == Extended(contributed, ContextKey(s), s.base - 1)
    && (s.lag <==> ContextKey(s) in contributed)
    && forall t: TypeId :: SingleOk(s.entries, s.singles, t)
  }

  ghost predicate Init(s: State) {
    (exists contributed: Entries :: Started(s.index, contributed))
    && forall t :: t in s.readers ==> s.readers[t].Idle?
  }

  lemma {:induction false} StartedContents(s: Index, contributed: Entries, k: Key)
    requires Started(s, contributed)
    ensures multiset(Candidates(s.entries, k)) == multiset(R.Ids(s.ds, k))
  {
    var n := s.base - 1;
    assert s.ds[..n] + [s.ds[n]] == s.ds;
    R.IdsGrow(s.ds[..n], s.ds[n], k);
  }

  lemma {:induction false} StartedLists(s: Index, contributed: Entries, k: Key)
    requires Started(s, contributed)
    ensures ListOk(s, k)
  {
    var v, ids := Candidates(s.entries, k), R.Ids(s.ds, k);
    assert s.ds[..|s.ds|] == s.ds;
    StartedContents(s, contributed, k);
    assert |multiset(v)| == |v| && |multiset(ids)| == |ids|;
    forall i | 0 <= i < |v|
      ensures v[i] in ids
    {
      assert v[i] in multiset(v);
    }
    if k in s.entries {
      assert v[0] in ids;
    }
  }

  lemma {:induction false} StartedHeads(s: Index, contributed: Entries, k: Key)
    requires Started(s, contributed)
    ensures HeadOk(s, k)
  {
    var n := s.base - 1;
    if k in contributed {
      ContributedHead(s, contributed, k);
    } else if k == ContextKey(s) {
      StartedContents(s, contributed, k);
      assert R.Ids(s.ds, k) == {n} by {
        assert multiset(R.Ids(s.ds, k)) == multiset{n};
        assert forall d :: d in R.Ids(s.ds, k) <==> d in multiset(R.Ids(s.ds, k));
      }
    }
  }

  /** The context bean matters to no other key, and under its own the lag hides it. */
  lemma {:induction false} ContributedHead(s: Index, contributed: Entries, k: Key)
    requires Started(s, contributed) && k in contributed
    ensures HeadOk(s, k)
  {
    var n := s.base - 1;
    var others, e := s.ds[..n], contributed[k];
    assert others + [s.ds[n]] == s.ds == s.ds[..|s.ds|];
    assert Candidates(contributed, k) == e.candidates;
    R.ListsIds(others, k, e.candidates);
    FirstIsTop(others, k, e.candidates);
    SortedListDecides(others, k, e.candidates);
    if k != ContextKey(s) {
      OneMore(others, s.ds[n], k);
      assert forall d: DescriptorId :: IsCandidate(s.ds, k, d) <==> IsCandidate(others, k, d);
      assert View(s, s.base, k) == s.ds;
    } else {
      assert View(s, s.base, k) == others;
    }
    assert TopAt(s, s.base, k, e.candidates[0]);
    assert if e.ambiguous then Answers(s, s.base, k, Ambiguous) else Clear(s, s.base, k);
  }

  lemma {:induction false} StartedBinder(s: Index, contributed: Entries)
    requires Started(s, contributed)
    ensures BinderOk(s)
  {
    var n, k := s.base - 1, ContextKey(s);
    assert s.ds[..s.base] == s.ds;
    if s.lag {
      assert Candidates(contributed, k) == contributed[k].candidates;
      R.ListsIds(s.ds[..n], k, contributed[k].candidates);
      assert contributed[k].candidates[0] in contributed[k].candidates;
    }
  }

  lemma {:induction false} StartedSingles(s: Index, contributed: Entries)
    requires Started(s, contributed) && BinderOk(s)
    ensures SinglesOk(s)
  {
    forall t | t in s.singles
      ensures Answers(s, Shortcut(s), Key(t, UNNAMED), Winner(s.singles[t]))
    {
      assert SingleOk(s.entries, s.singles, t);
      StartedLists(s, contributed, Key(t, UNNAMED));
      OneListed(s, Key(t, UNNAMED));
    }
  }

  lemma {:induction false} InitOk(s: State)
    requires Init(s)
    ensures Inv(s)
  {
    var contributed :| Started(s.index, contributed);
    StartedBinder(s.index, contributed);
    StartedSingles(s.index, contributed);
    forall k: Key {
      StartedLists(s.index, contributed, k);
    }
    forall k: Key {
      StartedHeads(s.index, contributed, k);
    }
  }

  lemma {:induction false} StepKeeps(s: State, step: Step, s': State)
    requires Inv(s) && Next(s, step, s')
    ensures Inv(s') && Later(s.index, s'.index)
  {
    match step
    case ReaderStep(t, a) => ReaderStepOk(s.index, s.readers[t], a);
    case BinderStep(a) =>
      BinderStepOk(s.index, a);
      forall t | t in s.readers
        ensures ReaderOk(s'.index, s.readers[t])
      {
        ReaderStays(s.index, s'.index, s.readers[t]);
      }
  }

  lemma {:induction false} RunKeeps(states: seq<State>, steps: seq<Step>, i: nat)
    requires Run(states, steps) && Init(states[0]) && i <= |steps|
    ensures Inv(states[i])
    decreases i
  {
    if i == 0 {
      InitOk(states[0]);
    } else {
      RunKeeps(states, steps, i - 1);
      StepKeeps(states[i - 1], steps[i - 1], states[i]);
    }
  }

  /**
   Over every run of any number of selections and bindings: a selection gives
   what is right at some moment since it began. There are two exceptions: one
   of the tied candidates, if the key was ambiguous at one moment since and not
   at another; and a key without candidates at the beginning that has got two
   or more since.
   */
  lemma {:induction false} SelectionIsPossible(states: seq<State>, steps: seq<Step>, i: nat, t: Token)
    requires Run(states, steps) && Init(states[0]) && i <= |steps|
    requires t in states[i].readers && states[i].readers[t].Done?
    ensures var s, rd := states[i].index, states[i].readers[t];
      Current(s, rd.since, rd.key, rd.result) || Torn(s, rd.since, rd.key, rd.result) || Overtaken(s, rd.since, rd.key)
  {
    RunKeeps(states, steps, i);
  }

  /** The key does not change between ambiguous and not, and does not get its first two candidates. */
  ghost predicate Undisturbed(s: Index, since: nat, k: Key) {
    && ((forall n: nat :: since <= n ==> !Answers(s, n, k, Ambiguous)) || (forall n: nat :: since <= n ==> !Clear(s, n, k)))
    && !Overtaken(s, since, k)
  }

  /** Then the selection takes effect at one moment: it gives exactly what is right then. */
  lemma {:induction false} UndisturbedIsExact(states: seq<State>, steps: seq<Step>, i: nat, t: Token) returns (n: nat)
    requires Run(states, steps) && Init(states[0]) && i <= |steps|
    requires t in states[i].readers && states[i].readers[t].Done?
    requires var rd := states[i].readers[t]; Undisturbed(states[i].index, rd.since, rd.key)
    ensures var rd := states[i].readers[t]; rd.since <= n && Answers(states[i].index, n, rd.key, rd.result)
  {
    SelectionIsPossible(states, steps, i, t);
    var s, rd := states[i].index, states[i].readers[t];
    NotTorn(s, rd.since, rd.key, rd.result);
    n :| rd.since <= n && Answers(s, n, rd.key, rd.result);
  }

  lemma {:induction false} NotTorn(s: Index, since: nat, k: Key, r: Selected)
    requires Undisturbed(s, since, k)
    ensures !Torn(s, since, k, r)
  {
  }

  // --- The two exceptions occur -------------------------------------------------------------------

  ghost predicate Reaches(s: State, s': State) {
    exists states, steps :: Run(states, steps) && states[0] == s && states[|steps|] == s'
  }

  lemma {:induction false} Stay(s: State)
    ensures Reaches(s, s)
  {
    var states, steps: seq<Step> := [s], [];
    assert Run(states, steps) && states[0] == s && states[|steps|] == s;
  }

  lemma {:induction false} Then(s: State, s': State, step: Step, s'': State)
    requires Reaches(s, s') && Next(s', step, s'')
    ensures Reaches(s, s'')
  {
    var states, steps :| Run(states, steps) && states[0] == s && states[|steps|] == s';
    var all, moves := states + [s''], steps + [step];
    forall i | 0 <= i < |moves|
      ensures Next(all[i], moves[i], all[i + 1])
    {
      if i < |steps| {
        assert all[i] == states[i] && all[i + 1] == states[i + 1] && moves[i] == steps[i];
      }
    }
    assert Run(all, moves) && all[0] == s && all[|moves|] == s'';
  }

  lemma {:induction false} ThenRead(s: State, s': State, t: Token, a: Action)
    requires Reaches(s, s') && t in s'.readers && Enabled(s'.index, s'.readers[t], a)
    ensures Reaches(s, s'.(readers := s'.readers[t := Moved(s'.index, s'.readers[t], a)]))
  {
    Then(s, s', ReaderStep(t, a), s'.(readers := s'.readers[t := Moved(s'.index, s'.readers[t], a)]));
  }

  lemma {:induction false} ThenBind(s: State, s': State, a: BinderAction)
    requires Reaches(s, s') && BinderEnabled(s'.index, a)
    ensures Reaches(s, s'.(index := BinderApply(s'.index, a)))
  {
    Then(s, s', BinderStep(a), s'.(index := BinderApply(s'.index, a)));
  }

  /** A binding up to the point where the lists are sorted. */
  function Appended(s: Index, x: Descriptor): Index {
    var entries := Extended(s.entries, x.key, |s.ds|);
    s.(ds := s.ds + [x], entries := entries, singles := map[], binder := Sorting(entries.Keys))
  }

  lemma {:induction false} ClearingReaches(s0: State, s: State)
    requires Reaches(s0, s) && s.index.binder.Clearing?
    ensures Reaches(s0, s.(index := s.index.(singles := map[], binder := Sorting(s.index.entries.Keys))))
    decreases |s.index.singles|
  {
    if s.index.singles == map[] {
      ThenBind(s0, s, StartSort);
    } else {
      var t :| t in s.index.singles;
      ThenBind(s0, s, ClearSingle(t));
      var fewer := s.index.singles - {t};
      assert fewer.Keys == s.index.singles.Keys - {t} && |fewer| == |fewer.Keys|;
      ClearingReaches(s0, s.(index := s.index.(singles := fewer)));
    }
  }

  lemma {:induction false} ListedReaches(s0: State, s: State, x: Descriptor)
    requires Reaches(s0, s) && BinderEnabled(s.index, Begin(x))
    ensures Reaches(s0, s.(index := Appended(s.index, x)))
  {
    var i := s.index;
    var e := if x.key in i.entries then i.entries[x.key] else NameEntry([], None, false);
    ThenBind(s0, s, Begin(x));
    ThenBind(s0, s.(index := i.(ds := i.ds + [x], binder := Inserting)), Emplace);
    var emplaced := i.(ds := i.ds + [x], entries := i.entries[x.key := e], binder := Emplaced);
    assert x.key in i.entries ==> i.entries[x.key := e] == i.entries;
    ThenBind(s0, s.(index := emplaced), Push);
    var pushed := emplaced.(entries := Extended(i.entries, x.key, |i.ds|), binder := Clearing);
    assert [] + [|i.ds|] == [|i.ds|];
    assert emplaced.entries[x.key := e.(candidates := e.candidates + [|i.ds|])] == pushed.entries;
    ClearingReaches(s0, s.(index := pushed));
  }

  /** A list that is sorted already gets its head and its flag. */
  function Finished(s: Index, k: Key): Index
    requires s.binder.Sorting? && k in s.entries
  {
    var v := s.entries[k].candidates;
    s.(entries := s.entries[k := NameEntry(v, HeadOf(v), TopTied(s.ds, v))],
       singles := if k.name == UNNAMED && |v| == 1 then s.singles[k.typeId := v[0]] else s.singles,
       binder := Sorting(s.binder.todo - {k}))
  }

  lemma {:induction false} FinishedReaches(s0: State, s: State, k: Key)
    requires Reaches(s0, s) && s.index.binder.Sorting? && k in s.index.binder.todo && ListsSorted(s.index, k)
    ensures Reaches(s0, s.(index := Finished(s.index, k)))
  {
    var i, todo, e := s.index, s.index.binder.todo - {k}, s.index.entries[k];
    var singles := Finished(i, k).singles;
    ThenBind(s0, s, Pick(k));
    ThenBind(s0, s.(index := i.(binder := Arranging(k, todo))), EndSort);
    ThenBind(s0, s.(index := i.(singles := singles, binder := HeadNext(k, todo))), WriteHead);
    var headed := i.entries[k := e.(head := HeadOf(e.candidates))];
    ThenBind(s0, s.(index := i.(entries := headed, singles := singles, binder := FlagNext(k, todo))), WriteFlag);
    assert headed[k := Finished(i, k).entries[k]] == Finished(i, k).entries;
  }

  const K := Key(5, 7)
  const CK := Key(9, UNNAMED)

  function Bean(priority: int): Descriptor {
    Descriptor(K, priority, Singleton, true)
  }

  /** Two keys: that of the context bean, with the one candidate `context`, and K. */
  function TwoKeys(ds: seq<Descriptor>, base: nat, context: DescriptorId, e: NameEntry, shortcut: bool, b: Binder): Index {
    Index(ds, base, false, map[K := e, CK := NameEntry([context], None, false)],
      if shortcut then map[9 := context] else map[], b)
  }

  const TIED := [Bean(0), Bean(0), R.ContextBean(9)]

  const TIED_START :=
    State(TwoKeys(TIED, 3, 2, NameEntry([0, 1], Some(0), true), true, Free), map[1 := Idle])

  lemma {:induction false} TiedStarts()
    ensures Init(TIED_START)
  {
    var contributed := map[K := NameEntry([0, 1], Some(0), true)];
    var s := TIED_START.index;
    assert s.ds[..2] == [Bean(0), Bean(0)];
    forall k: Key
      ensures multiset(Candidates(contributed, k)) == multiset(R.Ids(s.ds[..2], k))
    {
      assert R.Ids(s.ds[..2], k) == if k == K then {0, 1} else {};
    }
    assert Started(s, contributed);
  }

  /** A bean of higher priority is bound; its entry is as the last writes of the binding find it. */
  function Bound(e: NameEntry, shortcut: bool, b: Binder): State {
    State(TwoKeys(TIED + [Bean(1)], 3, 2, e, shortcut, b), map[1 := AtFlag(K, 3, 0)])
  }

  lemma {:induction false} HeadReadReaches()
    ensures Reaches(TIED_START, TIED_START.(readers := map[1 := AtFlag(K, 3, 0)]))
  {
    Stay(TIED_START);
    ThenRead(TIED_START, TIED_START, 1, Ask(K));
    var s1 := TIED_START.(readers := map[1 := AtEntry(K, 3)]);
    assert TIED_START.(readers := TIED_START.readers[1 := AtEntry(K, 3)]) == s1;
    ThenRead(TIED_START, s1, 1, ReadHead);
    assert s1.readers[1 := AtFlag(K, 3, 0)] == map[1 := AtFlag(K, 3, 0)];
  }

  /** The selection has read the head; the new bean is listed and the lists are about to be sorted. */
  lemma {:induction false} BoundReaches()
    ensures Reaches(TIED_START, Bound(NameEntry([0, 1, 3], Some(0), true), false, Sorting({K, CK})))
  {
    var s := TIED_START.(readers := map[1 := AtFlag(K, 3, 0)]);
    HeadReadReaches();
    ListedReaches(TIED_START, s, Bean(1));
    var e := NameEntry([0, 1, 3], Some(0), true);
    assert [0, 1] + [3] == [0, 1, 3];
    assert Extended(s.index.entries, K, 3) == Bound(e, false, Free).index.entries;
    assert Bound(e, false, Free).index.entries.Keys == {K, CK};
  }

  /** One write of the sort of K's list. */
  lemma {:induction false} PlaceReaches(v: seq<DescriptorId>, i: nat, d: DescriptorId)
    requires Reaches(TIED_START, Bound(NameEntry(v, Some(0), true), false, Arranging(K, {CK})))
    requires i < |v| && (d == 0 || d == 1 || d == 3)
    ensures Reaches(TIED_START, Bound(NameEntry(v[i := d], Some(0), true), false, Arranging(K, {CK})))
  {
    var s, s' := Bound(NameEntry(v, Some(0), true), false, Arranging(K, {CK})),
                 Bound(NameEntry(v[i := d], Some(0), true), false, Arranging(K, {CK}));
    assert d in R.Ids(s.index.ds, K);
    ThenBind(TIED_START, s, Place(i, d));
    assert s.index.entries[K := NameEntry(v[i := d], Some(0), true)] == s'.index.entries;
  }

  /** An insertion sort moves the new bean to the front. */
  lemma {:induction false} ArrangedReaches()
    ensures Reaches(TIED_START, Bound(NameEntry([3, 0, 1], Some(0), true), false, Arranging(K, {CK})))
  {
    BoundReaches();
    ThenBind(TIED_START, Bound(NameEntry([0, 1, 3], Some(0), true), false, Sorting({K, CK})), Pick(K));
    assert {K, CK} - {K} == {CK};
    PlaceReaches([0, 1, 3], 2, 1);
    assert [0, 1, 3][2 := 1] == [0, 1, 1];
    PlaceReaches([0, 1, 1], 1, 0);
    assert [0, 1, 1][1 := 0] == [0, 0, 1];
    PlaceReaches([0, 0, 1], 0, 3);
    assert [0, 0, 1][0 := 3] == [3, 0, 1];
  }

  lemma {:induction false} NewBeanWins(ds: seq<Descriptor>)
    requires ds == TIED + [Bean(1)]
    ensures Sorted(ds, [3, 0, 1]) && ListsCandidates(ds, K, [3, 0, 1])
    ensures Spec(ds, K) == Winner(3) && Spec(TIED, K) == Ambiguous
  {
    assert ListsCandidates(ds, K, [3, 0, 1]);
    SortedListDecides(ds, K, [3, 0, 1]);
    assert Sorted(TIED, [0, 1]) && ListsCandidates(TIED, K, [0, 1]);
    SortedListDecides(TIED, K, [0, 1]);
  }

  lemma {:induction false} HeadWrittenReaches()
    ensures Reaches(TIED_START, Bound(NameEntry([3, 0, 1], Some(3), true), false, FlagNext(K, {CK})))
  {
    var v := [3, 0, 1];
    var s := Bound(NameEntry(v, Some(0), true), false, Arranging(K, {CK}));
    ArrangedReaches();
    NewBeanWins(s.index.ds);
    ThenBind(TIED_START, s, EndSort);
    ThenBind(TIED_START, Bound(NameEntry(v, Some(0), true), false, HeadNext(K, {CK})), WriteHead);
    assert s.index.entries[K := NameEntry(v, Some(3), true)]
           == Bound(NameEntry(v, Some(3), true), false, FlagNext(K, {CK})).index.entries;
  }

  /** The flag of the new bean's entry is written, after the selection has read the old head. */
  lemma {:induction false} WrittenReaches()
    ensures Reaches(TIED_START, Bound(NameEntry([3, 0, 1], Some(3), false), false, Sorting({CK})))
  {
    var v := [3, 0, 1];
    var s := Bound(NameEntry(v, Some(3), true), false, FlagNext(K, {CK}));
    HeadWrittenReaches();
    ThenBind(TIED_START, s, WriteFlag);
    assert s.index.entries[K := NameEntry(v, Some(3), false)]
           == Bound(NameEntry(v, Some(3), false), false, Sorting({CK})).index.entries;
  }

  /**
   An ambiguous key gets a bean of higher priority, and a selection reads the
   head before and the ambiguity flag after: it gives one of the tied beans,
   which is right neither before the binding nor after it.
   */
  lemma {:induction false} TornSelection() returns (s: State)
    ensures Init(TIED_START) && Reaches(TIED_START, s) && 1 in s.readers
    ensures s.readers[1] == Done(K, 3, Winner(0))
    ensures forall n: nat :: 3 <= n ==> !Answers(s.index, n, K, Winner(0))
  {
    TiedStarts();
    WrittenReaches();
    var s1 := Bound(NameEntry([3, 0, 1], Some(3), false), false, Sorting({CK}));
    ThenRead(TIED_START, s1, 1, ReadFlag);
    s := s1.(readers := s1.readers[1 := Done(K, 3, Winner(0))]);
    NewBeanWins(s.index.ds);
    assert s.index.ds[..3] == TIED && s.index.ds[..4] == s.index.ds;
  }

  const LONE_START := State(Index([R.ContextBean(9)], 1, false, map[CK := NameEntry([0], None, false)], map[9 := 0], Free),
                            map[1 := Idle])

  /** K's entry beside that of the context bean, while the second of two bindings to K is made. */
  function Lone(ds: seq<Descriptor>, k: NameEntry, c: NameEntry, singles: map<TypeId, DescriptorId>, b: Binder, rd: Reader): State {
    State(Index(ds, 1, false, map[K := k, CK := c], singles, b), map[1 := rd])
  }

  const ONE := [R.ContextBean(9), Bean(0)]
  const TWO := [R.ContextBean(9), Bean(0), Bean(1)]

  lemma {:induction false} LoneStarts()
    ensures Init(LONE_START)
  {
    var contributed: Entries := map[];
    var s := LONE_START.index;
    assert s.ds[..0] == [];
    forall k: Key
      ensures multiset(Candidates(contributed, k)) == multiset(R.Ids(s.ds[..0], k))
    {
      assert R.Ids(s.ds[..0], k) == {};
    }
    assert Started(s, contributed);
  }

  /** The first bean is listed without a head, and a selection has seen that. */
  lemma {:induction false} NoHeadReaches()
    ensures Reaches(LONE_START,
      Lone(ONE, NameEntry([1], None, false), NameEntry([0], None, false), map[], Sorting({K, CK}), AtList(K, 1)))
  {
    var k, c := NameEntry([1], None, false), NameEntry([0], None, false);
    Stay(LONE_START);
    ListedReaches(LONE_START, LONE_START, Bean(0));
    assert LONE_START.index.ds + [Bean(0)] == ONE;
    assert Extended(LONE_START.index.entries, K, 1) == map[K := k, CK := c];
    assert map[K := k, CK := c].Keys == {K, CK};
    var s := Lone(ONE, k, c, map[], Sorting({K, CK}), Idle);
    ThenRead(LONE_START, s, 1, Ask(K));
    assert s.readers[1 := AtEntry(K, 1)] == map[1 := AtEntry(K, 1)];
    var s' := Lone(ONE, k, c, map[], Sorting({K, CK}), AtEntry(K, 1));
    ThenRead(LONE_START, s', 1, ReadHead);
    assert s'.readers[1 := AtList(K, 1)] == map[1 := AtList(K, 1)];
  }

  lemma {:induction false} FirstFinished()
    ensures Reaches(LONE_START,
      Lone(ONE, NameEntry([1], Some(1), false), NameEntry([0], Some(0), false), map[9 := 0], Free, AtList(K, 1)))
  {
    var k, c, k', c' := NameEntry([1], None, false), NameEntry([0], None, false),
                        NameEntry([1], Some(1), false), NameEntry([0], Some(0), false);
    NoHeadReaches();
    var s := Lone(ONE, k, c, map[], Sorting({K, CK}), AtList(K, 1));
    FinishedReaches(LONE_START, s, K);
    assert s.index.entries[K := k'] == map[K := k', CK := c] && {K, CK} - {K} == {CK};
    var s' := Lone(ONE, k', c, map[], Sorting({CK}), AtList(K, 1));
    FinishedReaches(LONE_START, s', CK);
    assert s'.index.entries[CK := c'] == map[K := k', CK := c'] && {CK} - {CK} == {};
    ThenBind(LONE_START, Lone(ONE, k', c', map[9 := 0], Sorting({}), AtList(K, 1)), EndBind);
  }

  /** The second bean is listed, and the sort has moved the first one to its place. */
  lemma {:induction false} FirstTwice()
    ensures Reaches(LONE_START,
      Lone(TWO, NameEntry([1, 1], Some(1), false), NameEntry([0], Some(0), false), map[], Arranging(K, {CK}), AtList(K, 1)))
  {
    var k, c := NameEntry([1], Some(1), false), NameEntry([0], Some(0), false);
    FirstFinished();
    var s := Lone(ONE, k, c, map[9 := 0], Free, AtList(K, 1));
    ListedReaches(LONE_START, s, Bean(1));
    assert ONE + [Bean(1)] == TWO && [1] + [2] == [1, 2];
    var k' := NameEntry([1, 2], Some(1), false);
    assert Extended(s.index.entries, K, 2) == map[K := k', CK := c];
    assert map[K := k', CK := c].Keys == {K, CK} && {K, CK} - {K} == {CK};
    ThenBind(LONE_START, Lone(TWO, k', c, map[], Sorting({K, CK}), AtList(K, 1)), Pick(K));
    var s' := Lone(TWO, k', c, map[], Arranging(K, {CK}), AtList(K, 1));
    assert 1 in R.Ids(TWO, K) && [1, 2][1 := 1] == [1, 1];
    ThenBind(LONE_START, s', Place(1, 1));
    assert s'.index.entries[K := NameEntry([1, 1], Some(1), false)]
           == map[K := NameEntry([1, 1], Some(1), false), CK := c];
  }

  lemma {:induction false} NeverTied(n: nat)
    requires 1 <= n <= 3
    ensures Spec(TWO[..n], K) != Ambiguous
  {
    var v: seq<DescriptorId> := if n == 1 then [] else if n == 2 then [1] else [2, 1];
    assert ListsCandidates(TWO[..n], K, v);
    SortedListDecides(TWO[..n], K, v);
  }

  /**
   A selection that found no head reads the list while the second of two beans
   is sorted in: it sees the first bean twice and reports an ambiguity that
   never was.
   */
  lemma {:induction false} OvertakenSelection() returns (s: State)
    ensures Init(LONE_START) && Reaches(LONE_START, s) && 1 in s.readers
    ensures s.readers[1] == Done(K, 1, Ambiguous)
    ensures forall n: nat :: 1 <= n ==> !Answers(s.index, n, K, Ambiguous)
  {
    LoneStarts();
    FirstTwice();
    var k, c := NameEntry([1, 1], Some(1), false), NameEntry([0], Some(0), false);
    var s1 := Lone(TWO, k, c, map[], Arranging(K, {CK}), AtList(K, 1));
    ThenRead(LONE_START, s1, 1, ReadFirst);
    assert s1.readers[1 := AtSecond(K, 1, 1)] == map[1 := AtSecond(K, 1, 1)];
    var s2 := Lone(TWO, k, c, map[], Arranging(K, {CK}), AtSecond(K, 1, 1));
    ThenRead(LONE_START, s2, 1, ReadSecond);
    s := s2.(readers := s2.readers[1 := Done(K, 1, Ambiguous)]);
    forall n: nat | 1 <= n <= 3
      ensures !Answers(s.index, n, K, Ambiguous)
    {
      NeverTied(n);
    }
  }
}
