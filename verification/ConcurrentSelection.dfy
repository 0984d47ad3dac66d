/**
 Selection without a lock while bindings are made: any number of threads read
 the candidate index, and one binder at a time, under the registry's write
 lock, appends a descriptor and sorts every candidate list again in place.
 */
module ConcurrentSelection {
  import opened Common
  import opened Selection
  import opened TypeIndex
  import R = Registry

  type Token = nat

  datatype Binder =
    | Free
      // the descriptor is in the table, but in no list
    | Inserting
      // its key has an entry
    | Emplaced
      // it is listed; the shortcuts are being cleared
    | Clearing
    | Sorting(todo: set<Key>)
      // the list of one key is being sorted in place
    | Arranging(key: Key, todo: set<Key>)
    | HeadNext(key: Key, todo: set<Key>)
    | FlagNext(key: Key, todo: set<Key>)

  /** A selection under way; `since` descriptors were completely bound when it began. */
  datatype Reader =
    | Idle
    | AtSingle(key: Key, since: nat)
    | AtEntry(key: Key, since: nat)
    | AtFlag(key: Key, since: nat, head: DescriptorId)
    | AtList(key: Key, since: nat)
    | AtSecond(key: Key, since: nat, first: DescriptorId)
    | Done(key: Key, since: nat, result: Selected)

  /**
   `base` descriptors exist since start, the context bean last; with `lag` its
   entry has other candidates and was not sorted at start.
   */
  datatype Index = Index(
    ds: seq<Descriptor>,
    base: nat,
    lag: bool,
    entries: Entries,
    singles: map<TypeId, DescriptorId>,
    binder: Binder)

  datatype State = State(index: Index, readers: map<Token, Reader>)

  datatype Action = Ask(key: Key) | ReadSingle | ReadHead | ReadFlag | ReadFirst | ReadSecond | Return

  datatype BinderAction =
    | Begin(x: Descriptor)
    | Emplace
    | Push
    | ClearSingle(t: TypeId)
    | StartSort
    | Pick(key: Key)
      // one write of the sort: a candidate is copied to a place in the list
    | Place(i: nat, d: DescriptorId)
    | EndSort
    | WriteHead
    | WriteFlag
    | EndBind

  function Before(s: Index): nat {
    if s.ds == [] then 0 else |s.ds| - 1
  }

  function Published(s: Index): nat {
    if s.binder.Free? then |s.ds| else Before(s)
  }

  function ContextKey(s: Index): Key {
    if 0 < s.base <= |s.ds| then s.ds[s.base - 1].key else Key(0, UNNAMED)
  }

  // --- Steps of a selection ------------------------------------------------------------

  predicate Enabled(s: Index, rd: Reader, a: Action) {
    match a
    case Ask(_) => rd.Idle?
    case ReadSingle => rd.AtSingle?
    case ReadHead => rd.AtEntry?
    case ReadFlag => rd.AtFlag? && rd.key in s.entries
    case ReadFirst => rd.AtList? && rd.key in s.entries
    case ReadSecond => rd.AtSecond? && rd.key in s.entries
    case Return => rd.Done?
  }

  function Moved(s: Index, rd: Reader, a: Action): Reader
    requires Enabled(s, rd, a)
  {
    match a
    case Ask(k) => if k.name == UNNAMED then AtSingle(k, Published(s)) else AtEntry(k, Published(s))
    case ReadSingle =>
      if rd.key.typeId in s.singles then Done(rd.key, rd.since, Winner(s.singles[rd.key.typeId]))
      else AtEntry(rd.key, rd.since)
    case ReadHead =>
      if rd.key !in s.entries then Done(rd.key, rd.since, NoCandidate)
      else if s.entries[rd.key].head.Some? then AtFlag(rd.key, rd.since, s.entries[rd.key].head.value)
      else AtList(rd.key, rd.since)
    case ReadFlag => Done(rd.key, rd.since, if s.entries[rd.key].ambiguous then Ambiguous else Winner(rd.head))
    case ReadFirst =>
      var v := s.entries[rd.key].candidates;
      if v == [] then Done(rd.key, rd.since, NoCandidate) else AtSecond(rd.key, rd.since, v[0])
    case ReadSecond =>
      Done(rd.key, rd.since, if TopTied(s.ds, s.entries[rd.key].candidates) then Ambiguous else Winner(rd.first))
    case Return => Idle
  }

  // --- Steps of a binding -----------------------------------------------------------------

  function NewKey(s: Index): Key {
    if s.ds == [] then Key(0, UNNAMED) else s.ds[Before(s)].key
  }

  ghost predicate BinderEnabled(s: Index, a: BinderAction) {
    var b := s.binder;
    match a
    case Begin(x) => b.Free? && x.key.typeId != ContextKey(s).typeId
    case Emplace => b.Inserting?
    case Push => b.Emplaced? && NewKey(s) in s.entries
    case ClearSingle(t) => b.Clearing? && t in s.singles
    case StartSort => b.Clearing? && s.singles == map[]
    case Pick(k) => b.Sorting? && k in b.todo
    case Place(i, d) =>
      b.Arranging? && b.key in s.entries && i < |s.entries[b.key].candidates| && d in R.Ids(s.ds, b.key)
    case EndSort =>
      b.Arranging? && b.key in s.entries
      && Sorted(s.ds, s.entries[b.key].candidates) && ListsCandidates(s.ds, b.key, s.entries[b.key].candidates)
    case WriteHead => b.HeadNext? && b.key in s.entries
    case WriteFlag => b.FlagNext? && b.key in s.entries
    case EndBind => b.Sorting? && b.todo == {}
  }

  function SetEntry(s: Index, k: Key, e: NameEntry, b: Binder): Index {
    s.(entries := s.entries[k := e], binder := b)
  }

  ghost function BinderApply(s: Index, a: BinderAction): Index
    requires BinderEnabled(s, a)
  {
    var b := s.binder;
    match a
    case Begin(x) => s.(ds := s.ds + [x], binder := Inserting)
    case Emplace =>
      if NewKey(s) in s.entries then s.(binder := Emplaced)
      else SetEntry(s, NewKey(s), NameEntry([], None, false), Emplaced)
    case Push =>
      var e := s.entries[NewKey(s)];
      SetEntry(s, NewKey(s), e.(candidates := e.candidates + [Before(s)]), Clearing)
    case ClearSingle(t) => s.(singles := s.singles - {t})
    case StartSort => s.(binder := Sorting(s.entries.Keys))
    case Pick(k) => s.(binder := Arranging(k, b.todo - {k}))
    case Place(i, d) =>
      var e := s.entries[b.key];
      SetEntry(s, b.key, e.(candidates := e.candidates[i := d]), b)
    case EndSort =>
      var v := s.entries[b.key].candidates;
      s.(singles := if b.key.name == UNNAMED && |v| == 1 then s.singles[b.key.typeId := v[0]] else s.singles,
         binder := HeadNext(b.key, b.todo))
    case WriteHead =>
      var e := s.entries[b.key];
      SetEntry(s, b.key, e.(head := HeadOf(e.candidates)), FlagNext(b.key, b.todo))
    case WriteFlag =>
      var e := s.entries[b.key];
      SetEntry(s, b.key, e.(ambiguous := TopTied(s.ds, e.candidates)), Sorting(b.todo))
    case EndBind => s.(binder := Free)
  }

  // --- What a selection should give --------------------------------------------------------

  /** The descriptors that count under a key once n of them are bound. */
  function View(s: Index, n: nat, k: Key): seq<Descriptor>
    requires 0 < s.base <= n <= |s.ds|
  {
    if s.lag && n == s.base && k == ContextKey(s) then s.ds[..n - 1] else s.ds[..n]
  }

  ghost predicate Answers(s: Index, n: nat, k: Key, r: Selected) {
    0 < s.base <= n <= |s.ds| && Spec(View(s, n, k), k) == r
  }

  /** `d` shares the top priority, or holds it alone, once n descriptors are bound. */
  ghost predicate TopAt(s: Index, n: nat, k: Key, d: DescriptorId) {
    0 < s.base <= n <= |s.ds| && IsTop(View(s, n, k), k, d)
  }

  /** The key is not ambiguous once n descriptors are bound. */
  ghost predicate Clear(s: Index, n: nat, k: Key) {
    0 < s.base <= n <= |s.ds| && Spec(View(s, n, k), k) != Ambiguous
  }

  /** At some moment since, `r` is what should be selected. */
  ghost predicate Current(s: Index, since: nat, k: Key, r: Selected) {
    exists n: nat :: since <= n && Answers(s, n, k, r)
  }

  ghost predicate TiedAt(s: Index, n: nat, k: Key, d: DescriptorId) {
    Answers(s, n, k, Ambiguous) && TopAt(s, n, k, d)
  }

  /** The key was ambiguous at one moment since and not at another, and `r` is one of the tied candidates. */
  ghost predicate Torn(s: Index, since: nat, k: Key, r: Selected) {
    && r.Winner?
    && (exists n: nat :: since <= n && TiedAt(s, n, k, r.id))
    && exists n: nat :: since <= n && Clear(s, n, k)
  }

  ghost predicate Possible(s: Index, since: nat, k: Key, r: Selected) {
    Current(s, since, k, r) || Torn(s, since, k, r) || Overtaken(s, since, k)
  }

  /** The key had no candidate when the selection began, and has had two or more bindings since. */
  ghost predicate Overtaken(s: Index, since: nat, k: Key) {
    since <= |s.ds| && R.Ids(s.ds[..since], k) == {} && |R.Ids(s.ds, k)| >= 2
  }

  // --- Invariant -----------------------------------------------------------------------------

  /** The binding under way has not finished with this key. */
  predicate Stale(b: Binder, k: Key) {
    match b
    case Free => false
    case Sorting(todo) => k in todo
    case Arranging(x, todo) => k == x || k in todo
    case HeadNext(x, todo) => k == x || k in todo
    case FlagNext(x, todo) => k == x || k in todo
    case _ => true
  }

  /** The number of descriptors that some list holds. */
  function Listed(s: Index): nat {
    if s.binder.Inserting? || s.binder.Emplaced? then Before(s) else |s.ds|
  }

  function Lowest(s: Index, k: Key): nat {
    if Stale(s.binder, k) then Before(s) else |s.ds|
  }

  ghost predicate IsContextAlone(s: Index, k: Key) {
    k == ContextKey(s) && R.Ids(s.ds, k) == {s.base - 1}
  }

  ghost predicate ListOk(s: Index, k: Key) {
    var listed := R.Ids(s.ds[..Listed(s)], k);
    if k in s.entries then
      && R.Ids(s.ds, k) != {}
      && |s.entries[k].candidates| == |listed|
      && forall i :: 0 <= i < |s.entries[k].candidates| ==> s.entries[k].candidates[i] in listed
    else listed == {}
  }

  ghost predicate HeadOk(s: Index, k: Key) {
    k in s.entries ==>
      if s.entries[k].head.Some? then
        && (exists n: nat :: Lowest(s, k) <= n && TopAt(s, n, k, s.entries[k].head.value))
        && (s.entries[k].ambiguous ==> exists n: nat :: Lowest(s, k) <= n && Answers(s, n, k, Ambiguous))
        && (!s.entries[k].ambiguous ==> exists n: nat :: Lowest(s, k) <= n && Clear(s, n, k))
      else
        && !s.entries[k].ambiguous
        && (IsContextAlone(s, k) || (Stale(s.binder, k) && R.Ids(s.ds[..Before(s)], k) == {}))
  }

  /** The number of bindings that the shortcuts take into account. */
  function Shortcut(s: Index): nat {
    if s.binder.Inserting? || s.binder.Emplaced? || s.binder.Clearing? then Before(s) else |s.ds|
  }

  ghost predicate SinglesOk(s: Index) {
    forall t :: t in s.singles ==> Answers(s, Shortcut(s), Key(t, UNNAMED), Winner(s.singles[t]))
  }

  ghost predicate ListsSorted(s: Index, k: Key) {
    k in s.entries && Sorted(s.ds, s.entries[k].candidates) && ListsCandidates(s.ds, k, s.entries[k].candidates)
  }

  ghost predicate BinderOk(s: Index) {
    && 0 < s.base <= |s.ds|
    && (!s.binder.Free? ==> s.base < |s.ds|)
    && (forall d: DescriptorId :: s.base <= d < |s.ds| ==> s.ds[d].key.typeId != ContextKey(s).typeId)
    && (s.lag ==> R.ContextPending(s.ds[..s.base]))
    && match s.binder
       case Emplaced => NewKey(s) in s.entries
       case Sorting(todo) => todo <= s.entries.Keys
       case Arranging(k, todo) => k in s.entries && k !in todo && todo <= s.entries.Keys
       case HeadNext(k, todo) => ListsSorted(s, k) && k !in todo && todo <= s.entries.Keys
       case FlagNext(k, todo) =>
         ListsSorted(s, k) && k !in todo && todo <= s.entries.Keys && s.entries[k].head == HeadOf(s.entries[k].candidates)
       case _ => true
  }

  ghost predicate ReaderOk(s: Index, rd: Reader) {
    rd.Idle? ||
    (s.base <= rd.since <= Published(s) &&
     match rd
     case AtSingle(k, _) => k.name == UNNAMED
     case AtEntry(_, _) => true
     case AtFlag(k, since, h) => k in s.entries && s.entries[k].head.Some? && exists n: nat :: since <= n && TopAt(s, n, k, h)
     case AtList(k, since) => k in s.entries && (IsContextAlone(s, k) || R.Ids(s.ds[..since], k) == {})
     case AtSecond(k, since, first) =>
       && k in s.entries && (IsContextAlone(s, k) || R.Ids(s.ds[..since], k) == {})
       && Possible(s, since, k, Winner(first))
     case Done(k, since, r) => Possible(s, since, k, r))
  }

  ghost predicate IndexOk(s: Index) {
    BinderOk(s) && SinglesOk(s) && (forall k: Key :: ListOk(s, k)) && (forall k: Key :: HeadOk(s, k))
  }

  ghost predicate Inv(s: State) {
    IndexOk(s.index) && forall t :: t in s.readers ==> ReaderOk(s.index, s.readers[t])
  }

  // --- Descriptors only grow -------------------------------------------------------------------

  /** Later descriptors, entries and moments; what was to be selected after n bindings stays so. */
  ghost predicate Later(s: Index, s': Index) {
    && s.ds <= s'.ds && s'.base == s.base && s'.lag == s.lag
    && Published(s) <= Published(s') && s.entries.Keys <= s'.entries.Keys
    && (forall k :: k in s.entries && s.entries[k].head.Some? ==> s'.entries[k].head.Some?)
    && (forall d: DescriptorId :: s.base <= d < |s'.ds| ==> s'.ds[d].key.typeId != ContextKey(s).typeId)
  }

  lemma {:induction false} IdsOfPrefix(ds: seq<Descriptor>, n: nat, k: Key)
    requires n <= |ds|
    ensures R.Ids(ds[..n], k) <= R.Ids(ds, k) && |R.Ids(ds[..n], k)| <= |R.Ids(ds, k)|
    ensures R.Ids(ds, k) == R.Ids(ds[..n], k) + set d: DescriptorId | n <= d < |ds| && ds[d].key == k
  {
    Subset(R.Ids(ds[..n], k), R.Ids(ds, k));
  }

  lemma {:induction false} Subset(a: set<DescriptorId>, b: set<DescriptorId>)
    requires a <= b
    ensures |a| <= |b|
  {
    assert b == a + (b - a);
  }

  lemma {:induction false} ViewStays(s: Index, s': Index, n: nat, k: Key)
    requires s.ds <= s'.ds && s'.base == s.base && s'.lag == s.lag && 0 < s.base <= n <= |s.ds|
    ensures View(s', n, k) == View(s, n, k)
  {
    assert s'.ds[..n] == s.ds[..n];
  }

  lemma {:induction false} AnswersStay(s: Index, s': Index, n: nat, k: Key, r: Selected)
    requires s.ds <= s'.ds && s'.base == s.base && s'.lag == s.lag && Answers(s, n, k, r)
    ensures Answers(s', n, k, r)
  {
    ViewStays(s, s', n, k);
  }

  lemma {:induction false} TopStays(s: Index, s': Index, n: nat, k: Key, d: DescriptorId)
    requires s.ds <= s'.ds && s'.base == s.base && s'.lag == s.lag && TopAt(s, n, k, d)
    ensures TopAt(s', n, k, d)
  {
    ViewStays(s, s', n, k);
  }

  lemma {:induction false} ClearStays(s: Index, s': Index, n: nat, k: Key)
    requires s.ds <= s'.ds && s'.base == s.base && s'.lag == s.lag && Clear(s, n, k)
    ensures Clear(s', n, k)
  {
    ViewStays(s, s', n, k);
  }

  lemma {:induction false} TornStays(s: Index, s': Index, since: nat, k: Key, r: Selected)
    requires Later(s, s') && Torn(s, since, k, r)
    ensures Torn(s', since, k, r)
  {
    var n: nat :| since <= n && TiedAt(s, n, k, r.id);
    AnswersStay(s, s', n, k, Ambiguous);
    TopStays(s, s', n, k, r.id);
    assert TiedAt(s', n, k, r.id);
    var m: nat :| since <= m && Clear(s, m, k);
    ClearStays(s, s', m, k);
  }

  lemma {:induction false} PossibleStays(s: Index, s': Index, since: nat, k: Key, r: Selected)
    requires Later(s, s') && Possible(s, since, k, r)
    ensures Possible(s', since, k, r)
  {
    if Current(s, since, k, r) {
      var n: nat :| since <= n && Answers(s, n, k, r);
      AnswersStay(s, s', n, k, r);
    } else if Torn(s, since, k, r) {
      TornStays(s, s', since, k, r);
    } else {
      assert s'.ds[..since] == s.ds[..since] && s'.ds[..|s.ds|] == s.ds;
      IdsOfPrefix(s'.ds, |s.ds|, k);
    }
  }

  lemma {:induction false} ContextStaysAlone(s: Index, s': Index, k: Key)
    requires Later(s, s') && 0 < s.base <= |s.ds| && IsContextAlone(s, k)
    ensures IsContextAlone(s', k)
  {
    assert s'.ds[..|s.ds|] == s.ds;
    IdsOfPrefix(s'.ds, |s.ds|, k);
  }

  lemma {:induction false} ReaderStays(s: Index, s': Index, rd: Reader)
    requires Later(s, s') && BinderOk(s) && ReaderOk(s, rd)
    ensures ReaderOk(s', rd)
  {
    match rd
    case AtFlag(k, since, h) =>
      var n: nat :| since <= n && TopAt(s, n, k, h);
      TopStays(s, s', n, k, h);
    case AtList(k, since) =>
      assert s'.ds[..since] == s.ds[..since];
      if IsContextAlone(s, k) { ContextStaysAlone(s, s', k); }
    case AtSecond(k, since, first) =>
      assert s'.ds[..since] == s.ds[..since];
      if IsContextAlone(s, k) { ContextStaysAlone(s, s', k); }
      PossibleStays(s, s', since, k, Winner(first));
    case Done(k, since, r) => PossibleStays(s, s', since, k, r);
    case _ =>
  }

  // --- Every step of a selection ----------------------------------------------------------------

  lemma {:induction false} NothingListed(s: Index, k: Key)
    requires IndexOk(s) && R.Ids(s.ds[..Listed(s)], k) == {}
    ensures Answers(s, Listed(s), k, NoCandidate)
  {
    var ds := View(s, Listed(s), k);
    assert forall d: DescriptorId :: IsCandidate(ds, k, d) ==> d in R.Ids(s.ds[..Listed(s)], k);
    SpecMeans(ds, k, NoCandidate);
  }

  lemma {:induction false} OneListed(s: Index, k: Key)
    requires BinderOk(s) && ListOk(s, k) && k in s.entries && |s.entries[k].candidates| == 1
    ensures Answers(s, Listed(s), k, Winner(s.entries[k].candidates[0]))
  {
    var n, d := Listed(s), s.entries[k].candidates[0];
    var ids := R.Ids(s.ds[..n], k);
    OnlyElement(ids, d);
    if s.lag && n == s.base && k == ContextKey(s) {
      LagHasTwo(s.ds[..n]);
      assert false;
    }
    assert forall e: DescriptorId :: IsCandidate(s.ds[..n], k, e) ==> e in ids;
    SpecMeans(s.ds[..n], k, Winner(d));
  }

  lemma {:induction false} LagHasTwo(ds: seq<Descriptor>)
    requires R.ContextPending(ds)
    ensures |R.Ids(ds, ds[|ds| - 1].key)| >= 2
  {
    var n, k := |ds| - 1, ds[|ds| - 1].key;
    var e: DescriptorId :| IsCandidate(ds[..n], k, e);
    Subset({e, n}, R.Ids(ds, k));
  }

  lemma {:induction false} OnlyElement(a: set<DescriptorId>, d: DescriptorId)
    requires |a| == 1 && d in a
    ensures a == {d}
  {
    Subset({d}, a);
    assert |a - {d}| == 0;
  }

  /** A candidate with the top priority is the right one, unless it is tied. */
  lemma {:induction false} TopIsPossible(s: Index, since: nat, n: nat, m: nat, k: Key, d: DescriptorId)
    requires since <= n && TopAt(s, n, k, d) && since <= m && Clear(s, m, k)
    ensures Possible(s, since, k, Winner(d))
  {
    var ds := View(s, n, k);
    SpecMeans(ds, k, Spec(ds, k));
    assert Answers(s, n, k, Spec(ds, k));
    assert IsCandidate(ds, k, d) && HasCandidate(ds, k);
    if Spec(ds, k).Winner? {
      assert IsOnlyTop(ds, k, Spec(ds, k).id);
    } else {
      assert TiedAt(s, n, k, d);
    }
  }

  lemma {:induction false} ReadSingleOk(s: Index, rd: Reader)
    requires IndexOk(s) && ReaderOk(s, rd) && Enabled(s, rd, ReadSingle)
    ensures ReaderOk(s, Moved(s, rd, ReadSingle))
  {
  }

  lemma {:induction false} ReadHeadOk(s: Index, rd: Reader)
    requires IndexOk(s) && ReaderOk(s, rd) && Enabled(s, rd, ReadHead)
    ensures ReaderOk(s, Moved(s, rd, ReadHead))
  {
    var k := rd.key;
    assert ListOk(s, k) && HeadOk(s, k);
    if k !in s.entries {
      NothingListed(s, k);
    } else if s.entries[k].head.None? && !IsContextAlone(s, k) {
      assert s.ds[..Before(s)][..rd.since] == s.ds[..rd.since];
      IdsOfPrefix(s.ds[..Before(s)], rd.since, k);
    }
  }

  lemma {:induction false} ReadFlagOk(s: Index, rd: Reader)
    requires IndexOk(s) && ReaderOk(s, rd) && Enabled(s, rd, ReadFlag)
    ensures ReaderOk(s, Moved(s, rd, ReadFlag))
  {
    var k := rd.key;
    assert HeadOk(s, k);
    if !s.entries[k].ambiguous {
      var n: nat :| rd.since <= n && TopAt(s, n, k, rd.head);
      var m: nat :| Lowest(s, k) <= m && Clear(s, m, k);
      TopIsPossible(s, rd.since, n, m, k, rd.head);
    }
  }

  /** A list of two or more, where there was none when the selection began. */
  lemma {:induction false} LongListOvertakes(s: Index, rd: Reader)
    requires IndexOk(s) && ReaderOk(s, rd) && (rd.AtList? || rd.AtSecond?)
    requires |s.entries[rd.key].candidates| >= 2
    ensures Overtaken(s, rd.since, rd.key)
  {
    assert ListOk(s, rd.key);
    IdsOfPrefix(s.ds, Listed(s), rd.key);
  }

  lemma {:induction false} ReadFirstOk(s: Index, rd: Reader)
    requires IndexOk(s) && ReaderOk(s, rd) && Enabled(s, rd, ReadFirst)
    ensures ReaderOk(s, Moved(s, rd, ReadFirst))
  {
    var v := s.entries[rd.key].candidates;
    assert ListOk(s, rd.key);
    if |v| == 0 {
      NothingListed(s, rd.key);
    } else if |v| == 1 {
      OneListed(s, rd.key);
      assert Current(s, rd.since, rd.key, Winner(v[0]));
    } else {
      LongListOvertakes(s, rd);
    }
  }

  lemma {:induction false} ReadSecondOk(s: Index, rd: Reader)
    requires IndexOk(s) && ReaderOk(s, rd) && Enabled(s, rd, ReadSecond)
    ensures ReaderOk(s, Moved(s, rd, ReadSecond))
  {
    if |s.entries[rd.key].candidates| >= 2 {
      LongListOvertakes(s, rd);
    }
  }

  lemma {:induction false} ReaderStepOk(s: Index, rd: Reader, a: Action)
    requires IndexOk(s) && ReaderOk(s, rd) && Enabled(s, rd, a)
    ensures ReaderOk(s, Moved(s, rd, a))
  {
    match a
    case ReadSingle => ReadSingleOk(s, rd);
    case ReadHead => ReadHeadOk(s, rd);
    case ReadFlag => ReadFlagOk(s, rd);
    case ReadFirst => ReadFirstOk(s, rd);
    case ReadSecond => ReadSecondOk(s, rd);
    case _ =>
  }

  // --- Every step of a binding ------------------------------------------------------------------

  lemma {:induction false} BinderLater(s: Index, a: BinderAction)
    requires IndexOk(s) && BinderEnabled(s, a)
    ensures Later(s, BinderApply(s, a))
  {
    if a == WriteHead {
      assert ListOk(s, s.binder.key);
    }
  }

  lemma {:induction false} BeginKeepsBinder(s: Index, x: Descriptor)
    requires BinderOk(s) && BinderEnabled(s, Begin(x))
    ensures BinderOk(BinderApply(s, Begin(x)))
  {
    var s' := BinderApply(s, Begin(x));
    assert s'.ds[..s.base] == s.ds[..s.base];
  }

  lemma {:induction false} BinderKeepsBinder(s: Index, a: BinderAction)
    requires BinderOk(s) && BinderEnabled(s, a)
    ensures BinderOk(BinderApply(s, a))
  {
    match a
    case Begin(x) => BeginKeepsBinder(s, x);
    case _ =>
  }

  lemma {:induction false} BeginKeepsList(s: Index, x: Descriptor, k: Key)
    requires ListOk(s, k) && BinderEnabled(s, Begin(x))
    ensures ListOk(BinderApply(s, Begin(x)), k)
  {
    var s' := BinderApply(s, Begin(x));
    assert s'.ds[..|s.ds|] == s.ds == s.ds[..|s.ds|];
    IdsOfPrefix(s'.ds, |s.ds|, k);
  }

  lemma {:induction false} PushKeepsList(s: Index, k: Key)
    requires ListOk(s, k) && BinderEnabled(s, Push) && s.ds != []
    ensures ListOk(BinderApply(s, Push), k)
  {
    var n := Before(s);
    assert s.ds[..|s.ds|] == s.ds;
    IdsOfLast(s.ds, k);
    if k == NewKey(s) {
      var v, v' := s.entries[k].candidates, BinderApply(s, Push).entries[k].candidates;
      assert v' == v + [n];
      assert |R.Ids(s.ds[..n], k) + {n}| == |R.Ids(s.ds[..n], k)| + 1;
    }
  }

  lemma {:induction false} IdsOfLast(ds: seq<Descriptor>, k: Key)
    requires ds != []
    ensures var n := |ds| - 1;
      && n !in R.Ids(ds[..n], k)
      && R.Ids(ds, k) == R.Ids(ds[..n], k) + (if ds[n].key == k then {n} else {})
  {
    IdsOfPrefix(ds, |ds| - 1, k);
  }

  lemma {:induction false} BinderKeepsLists(s: Index, a: BinderAction, k: Key)
    requires ListOk(s, k) && BinderEnabled(s, a) && s.ds != []
    ensures ListOk(BinderApply(s, a), k)
  {
    match a
    case Begin(x) => BeginKeepsList(s, x, k);
    case Emplace => assert Before(s) in R.Ids(s.ds, NewKey(s));
    case Push => PushKeepsList(s, k);
    case Place(i, d) => assert s.ds[..|s.ds|] == s.ds;
    case _ =>
  }

  lemma {:induction false} FirstIsTop(ds: seq<Descriptor>, k: Key, v: seq<DescriptorId>)
    requires Sorted(ds, v) && ListsCandidates(ds, k, v) && v != []
    ensures IsTop(ds, k, v[0])
  {
    assert v[0] in v;
    forall e: DescriptorId | IsCandidate(ds, k, e)
      ensures ds[e].priority <= ds[v[0]].priority
    {
      var i :| 0 <= i < |v| && v[i] == e;
    }
  }

  lemma {:induction false} SortedTop(s: Index, k: Key)
    requires BinderOk(s) && s.base < |s.ds| && ListsSorted(s, k) && s.entries[k].candidates != []
    ensures var v := s.entries[k].candidates;
      && TopAt(s, |s.ds|, k, v[0])
      && Answers(s, |s.ds|, k, if TopTied(s.ds, v) then Ambiguous else Winner(v[0]))
  {
    assert View(s, |s.ds|, k) == s.ds;
    SortedListDecides(s.ds, k, s.entries[k].candidates);
    FirstIsTop(s.ds, k, s.entries[k].candidates);
  }

  lemma {:induction false} EndSortKeepsSingles(s: Index)
    requires BinderOk(s) && SinglesOk(s) && BinderEnabled(s, EndSort)
    ensures SinglesOk(BinderApply(s, EndSort))
  {
    if |s.entries[s.binder.key].candidates| == 1 {
      SortedTop(s, s.binder.key);
    }
  }

  lemma {:induction false} SinglesStay(s: Index, s': Index)
    requires SinglesOk(s) && s.ds <= s'.ds && s'.base == s.base && s'.lag == s.lag
    requires Shortcut(s') == Shortcut(s) && forall t :: t in s'.singles ==> t in s.singles && s'.singles[t] == s.singles[t]
    ensures SinglesOk(s')
  {
    forall t | t in s'.singles
      ensures Answers(s', Shortcut(s'), Key(t, UNNAMED), Winner(s'.singles[t]))
    {
      AnswersStay(s, s', Shortcut(s), Key(t, UNNAMED), Winner(s.singles[t]));
    }
  }

  lemma {:induction false} BinderKeepsSingles(s: Index, a: BinderAction)
    requires BinderOk(s) && SinglesOk(s) && BinderEnabled(s, a)
    ensures SinglesOk(BinderApply(s, a))
  {
    if a == EndSort {
      EndSortKeepsSingles(s);
    } else if a != StartSort {
      SinglesStay(s, BinderApply(s, a));
    }
  }

  /** Nothing that a step changes matters to a key it does not touch. */
  lemma {:induction false} HeadStays(s: Index, s': Index, k: Key)
    requires HeadOk(s, k) && Later(s, s') && 0 < s.base <= |s.ds|
    requires k in s.entries && k in s'.entries
    requires s'.entries[k].head == s.entries[k].head && s'.entries[k].ambiguous == s.entries[k].ambiguous
    requires Lowest(s', k) <= Lowest(s, k)
    requires Stale(s.binder, k) ==> Stale(s'.binder, k) && s'.ds == s.ds
    ensures HeadOk(s', k)
  {
    if s.entries[k].head.Some? {
      var n: nat :| Lowest(s, k) <= n && TopAt(s, n, k, s.entries[k].head.value);
      TopStays(s, s', n, k, s.entries[k].head.value);
      if s.entries[k].ambiguous {
        var m: nat :| Lowest(s, k) <= m && Answers(s, m, k, Ambiguous);
        AnswersStay(s, s', m, k, Ambiguous);
      } else {
        var m: nat :| Lowest(s, k) <= m && Clear(s, m, k);
        ClearStays(s, s', m, k);
      }
    } else if IsContextAlone(s, k) {
      ContextStaysAlone(s, s', k);
    }
  }

  /** A key without a precomputed head has one candidate or none. */
  lemma {:induction false} NoHeadIsClear(s: Index, k: Key)
    requires BinderOk(s) && s.base < |s.ds| && HeadOk(s, k) && k in s.entries && s.entries[k].head.None?
    ensures exists n: nat :: Before(s) <= n && Clear(s, n, k)
  {
    if IsContextAlone(s, k) {
      assert s.base - 1 in R.Ids(s.ds, k);
      assert forall d: DescriptorId :: IsCandidate(s.ds, k, d) ==> d in R.Ids(s.ds, k);
      assert View(s, |s.ds|, k) == s.ds;
      SpecMeans(s.ds, k, Winner(s.base - 1));
      assert Clear(s, |s.ds|, k);
    } else {
      var ds := View(s, Before(s), k);
      assert forall d: DescriptorId :: IsCandidate(ds, k, d) ==> d in R.Ids(s.ds[..Before(s)], k);
      SpecMeans(ds, k, NoCandidate);
      assert Clear(s, Before(s), k);
    }
  }

  lemma {:induction false} WriteHeadKeeps(s: Index)
    requires IndexOk(s) && BinderEnabled(s, WriteHead)
    ensures HeadOk(BinderApply(s, WriteHead), s.binder.key)
  {
    var s', k := BinderApply(s, WriteHead), s.binder.key;
    assert ListOk(s, k) && HeadOk(s, k);
    SortedTop(s, k);
    TopStays(s, s', |s.ds|, k, s'.entries[k].head.value);
    if s.entries[k].ambiguous {
      var m: nat :| Lowest(s, k) <= m && Answers(s, m, k, Ambiguous);
      AnswersStay(s, s', m, k, Ambiguous);
    } else {
      if s.entries[k].head.None? {
        NoHeadIsClear(s, k);
      }
      var m: nat :| Before(s) <= m && Clear(s, m, k);
      ClearStays(s, s', m, k);
    }
  }

  lemma {:induction false} WriteFlagKeeps(s: Index)
    requires IndexOk(s) && BinderEnabled(s, WriteFlag)
    ensures HeadOk(BinderApply(s, WriteFlag), s.binder.key)
  {
    var s', k := BinderApply(s, WriteFlag), s.binder.key;
    assert ListOk(s, k);
    SortedTop(s, k);
    TopStays(s, s', |s.ds|, k, s'.entries[k].head.value);
    AnswersStay(s, s', |s.ds|, k, Spec(View(s, |s.ds|, k), k));
    assert s'.entries[k].ambiguous || Clear(s', |s.ds|, k);
  }

  lemma {:induction false} BinderKeepsHeads(s: Index, a: BinderAction, k: Key)
    requires IndexOk(s) && BinderEnabled(s, a)
    ensures HeadOk(BinderApply(s, a), k)
  {
    var s' := BinderApply(s, a);
    BinderLater(s, a);
    assert ListOk(s, k) && HeadOk(s, k);
    if a == WriteHead && k == s.binder.key {
      WriteHeadKeeps(s);
    } else if a == WriteFlag && k == s.binder.key {
      WriteFlagKeeps(s);
    } else if k in s.entries {
      HeadStays(s, s', k);
    }
  }

  lemma {:induction false} BinderStepOk(s: Index, a: BinderAction)
    requires IndexOk(s) && BinderEnabled(s, a)
    ensures IndexOk(BinderApply(s, a)) && Later(s, BinderApply(s, a))
  {
    BinderLater(s, a);
    BinderKeepsBinder(s, a);
    BinderKeepsSingles(s, a);
    forall k: Key {
      BinderKeepsLists(s, a, k);
    }
    forall k: Key {
      BinderKeepsHeads(s, a, k);
    }
  }
}
