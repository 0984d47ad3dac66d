/**
 Lifecycle listeners: per-phase master lists kept sorted in place, an immutable
 view rebuilt from them, and dispatch by merging two lists of that view.
 */
module ListenerStore {
  import opened Common

  const PHASE_COUNT: nat := 4
  // kInvalidTypeId: a type-agnostic ("global") listener
  const NO_TYPE: nat := 0xFFFF_FFFF
  // kInvalidNameId - 2: a root listener, which matches every emitter scope
  const ALL_SCOPES: nat := 0xFFFF_FFFD

  datatype Entry = Entry(typeId: nat, scope: nat, callback: nat, priority: int, token: nat)

  datatype PhaseView = PhaseView(global: seq<Entry>, typed: map<nat, seq<Entry>>)

  type View = seq<PhaseView>

  // --- Sorted insertion --------------------------------------------------------

  predicate SortedByPriority(v: seq<Entry>) {
    forall i, j :: 0 <= i < j < |v| ==> v[i].priority >= v[j].priority
  }

  /** Sorted by priority, and by registration among equal priorities. */
  predicate SortedByToken(v: seq<Entry>) {
    forall i, j :: 0 <= i < j < |v| ==>
      v[i].priority > v[j].priority || (v[i].priority == v[j].priority && v[i].token < v[j].token)
  }

  /** Behind every entry of at least the same priority. */
  function InsertPos(v: seq<Entry>, priority: int): nat {
    if v == [] || v[0].priority < priority then 0 else 1 + InsertPos(v[1..], priority)
  }

  lemma {:induction false} InsertPosSplits(v: seq<Entry>, priority: int)
    requires SortedByPriority(v)
    ensures InsertPos(v, priority) <= |v|
    ensures forall i :: 0 <= i < |v| ==> (i < InsertPos(v, priority) <==> v[i].priority >= priority)
  {
    if v != [] && v[0].priority >= priority {
      InsertPosSplits(v[1..], priority);
    }
  }

  function Inserted(v: seq<Entry>, e: Entry): seq<Entry>
    requires SortedByPriority(v)
  {
    InsertPosSplits(v, e.priority);
    v[..InsertPos(v, e.priority)] + [e] + v[InsertPos(v, e.priority)..]
  }

  lemma {:induction false} InsertedAt(v: seq<Entry>, e: Entry, i: nat)
    requires SortedByPriority(v) && i <= |v|
    ensures |Inserted(v, e)| == |v| + 1 && InsertPos(v, e.priority) <= |v|
    ensures var p := InsertPos(v, e.priority);
      Inserted(v, e)[i] == if i < p then v[i] else if i == p then e else v[i - 1]
  {
    InsertPosSplits(v, e.priority);
  }

  lemma {:induction false} InsertedContents(v: seq<Entry>, e: Entry)
    requires SortedByPriority(v)
    ensures multiset(Inserted(v, e)) == multiset(v) + multiset{e}
  {
    InsertPosSplits(v, e.priority);
    var p := InsertPos(v, e.priority);
    assert v == v[..p] + v[p..];
  }

  lemma {:induction false} InsertedKeepsSorted(v: seq<Entry>, e: Entry)
    requires SortedByPriority(v)
    ensures SortedByPriority(Inserted(v, e))
  {
    InsertPosSplits(v, e.priority);
    forall i, j | 0 <= i < j < |Inserted(v, e)|
      ensures Inserted(v, e)[i].priority >= Inserted(v, e)[j].priority
    {
      InsertedAt(v, e, i);
      InsertedAt(v, e, j);
    }
  }

  /** Insertion keeps registration order exactly when the token is newer than all tokens of its priority. */
  lemma {:induction false} InsertedKeepsTokensIff(v: seq<Entry>, e: Entry)
    requires SortedByPriority(v) && SortedByToken(v)
    ensures SortedByToken(Inserted(v, e)) <==> forall x :: x in v && x.priority == e.priority ==> x.token < e.token
  {
    var w, p := Inserted(v, e), InsertPos(v, e.priority);
    InsertPosSplits(v, e.priority);
    if forall x :: x in v && x.priority == e.priority ==> x.token < e.token {
      InsertedKeepsTokens(v, e);
    } else {
      var x :| x in v && x.priority == e.priority && x.token >= e.token;
      var i :| 0 <= i < |v| && v[i] == x;
      assert w[i] == x && w[p] == e && i < p;
    }
  }

  lemma {:induction false} InsertedKeepsTokens(v: seq<Entry>, e: Entry)
    requires SortedByPriority(v) && SortedByToken(v)
    requires forall x :: x in v && x.priority == e.priority ==> x.token < e.token
    ensures SortedByToken(Inserted(v, e))
  {
    InsertPosSplits(v, e.priority);
    forall i, j | 0 <= i < j < |Inserted(v, e)|
      ensures var w := Inserted(v, e);
        w[i].priority > w[j].priority || (w[i].priority == w[j].priority && w[i].token < w[j].token)
    {
      InsertedAt(v, e, i);
      InsertedAt(v, e, j);
    }
  }

  // --- The view ------------------------------------------------------------------

  function OfType(v: seq<Entry>, typeId: nat): seq<Entry> {
    if v == [] then []
    else if v[0].typeId == typeId then [v[0]] + OfType(v[1..], typeId)
    else OfType(v[1..], typeId)
  }

  lemma {:induction false} OfTypeAppend(v: seq<Entry>, e: Entry, typeId: nat)
    ensures OfType(v + [e], typeId) == OfType(v, typeId) + (if e.typeId == typeId then [e] else [])
  {
    if v == [] {
      assert v + [e] == [e];
    } else {
      assert (v + [e])[1..] == v[1..] + [e];
      OfTypeAppend(v[1..], e, typeId);
    }
  }

  lemma {:induction false} OfTypeMembers(v: seq<Entry>, typeId: nat)
    ensures forall e :: e in OfType(v, typeId) <==> e in v && e.typeId == typeId
  {
    if v != [] {
      OfTypeMembers(v[1..], typeId);
      assert v == [v[0]] + v[1..];
    }
  }

  function Typed(pv: PhaseView, typeId: nat): seq<Entry> {
    if typeId in pv.typed then pv.typed[typeId] else []
  }

  /** The view lists exactly the master list, split by type filter and in the same order. */
  ghost predicate PhaseViewOf(pv: PhaseView, v: seq<Entry>) {
    && pv.global == OfType(v, NO_TYPE)
    && NO_TYPE !in pv.typed
    && forall t :: t != NO_TYPE ==> Typed(pv, t) == OfType(v, t)
  }

  // --- Dispatch --------------------------------------------------------------------

  predicate GlobalFirst(g: Entry, t: Entry) {
    g.priority > t.priority || (g.priority == t.priority && g.token < t.token)
  }

  /** The order in which the two lists are walked. */
  function Merge(globals: seq<Entry>, typeds: seq<Entry>): seq<Entry>
    decreases |globals| + |typeds|
  {
    if globals == [] then typeds
    else if typeds == [] then globals
    else if GlobalFirst(globals[0], typeds[0]) then [globals[0]] + Merge(globals[1..], typeds)
    else [typeds[0]] + Merge(globals, typeds[1..])
  }

  predicate ScopeMatches(e: Entry, emitter: nat) {
    e.scope == ALL_SCOPES || e.scope == emitter
  }

  function InScope(v: seq<Entry>, emitter: nat): seq<Entry> {
    if v == [] then []
    else (if ScopeMatches(v[0], emitter) then [v[0]] else []) + InScope(v[1..], emitter)
  }

  /** The calls made in all when the walk stands at the two indices with `calls` behind it. */
  function Walk(globals: seq<Entry>, typeds: seq<Entry>, gi: nat, ti: nat, emitter: nat, calls: seq<Entry>): seq<Entry>
    requires gi <= |globals| && ti <= |typeds|
    decreases |globals| - gi + |typeds| - ti
  {
    if gi < |globals| && (ti == |typeds| || GlobalFirst(globals[gi], typeds[ti])) then
      Walk(globals, typeds, gi + 1, ti, emitter,
        if ScopeMatches(globals[gi], emitter) then calls + [globals[gi]] else calls)
    else if ti < |typeds| then
      Walk(globals, typeds, gi, ti + 1, emitter,
        if ScopeMatches(typeds[ti], emitter) then calls + [typeds[ti]] else calls)
    else calls
  }

  /** One step of the walk takes the head of the merge of what is left. */
  lemma {:induction false} WalkHead(globals: seq<Entry>, typeds: seq<Entry>, gi: nat, ti: nat, emitter: nat)
    requires gi <= |globals| && ti <= |typeds|
    ensures var rest := InScope(Merge(globals[gi..], typeds[ti..]), emitter);
      if gi < |globals| && (ti == |typeds| || GlobalFirst(globals[gi], typeds[ti])) then
        rest == (if ScopeMatches(globals[gi], emitter) then [globals[gi]] else [])
                + InScope(Merge(globals[gi + 1..], typeds[ti..]), emitter)
      else if ti < |typeds| then
        rest == (if ScopeMatches(typeds[ti], emitter) then [typeds[ti]] else [])
                + InScope(Merge(globals[gi..], typeds[ti + 1..]), emitter)
      else rest == []
  {
    MergeNil(globals[gi..]);
    MergeNil(typeds[ti..]);
    if gi < |globals| {
      assert globals[gi..][1..] == globals[gi + 1..];
      MergeNil(globals[gi + 1..]);
    }
    if ti < |typeds| {
      assert typeds[ti..][1..] == typeds[ti + 1..];
      MergeNil(typeds[ti + 1..]);
    }
  }

  lemma Called(calls: seq<Entry>, e: Entry, emitter: nat, rest: seq<Entry>)
    ensures calls + ((if ScopeMatches(e, emitter) then [e] else []) + rest)
         == (if ScopeMatches(e, emitter) then calls + [e] else calls) + rest
  {
  }

  lemma {:induction false} WalkIsMerge(
    globals: seq<Entry>, typeds: seq<Entry>, gi: nat, ti: nat, emitter: nat, calls: seq<Entry>)
    requires gi <= |globals| && ti <= |typeds|
    ensures Walk(globals, typeds, gi, ti, emitter, calls)
            == calls + InScope(Merge(globals[gi..], typeds[ti..]), emitter)
    decreases |globals| - gi + |typeds| - ti
  {
    WalkHead(globals, typeds, gi, ti, emitter);
    if gi < |globals| && (ti == |typeds| || GlobalFirst(globals[gi], typeds[ti])) {
      var next := if ScopeMatches(globals[gi], emitter) then calls + [globals[gi]] else calls;
      WalkIsMerge(globals, typeds, gi + 1, ti, emitter, next);
      Called(calls, globals[gi], emitter, InScope(Merge(globals[gi + 1..], typeds[ti..]), emitter));
    } else if ti < |typeds| {
      var next := if ScopeMatches(typeds[ti], emitter) then calls + [typeds[ti]] else calls;
      WalkIsMerge(globals, typeds, gi, ti + 1, emitter, next);
      Called(calls, typeds[ti], emitter, InScope(Merge(globals[gi..], typeds[ti + 1..]), emitter));
    }
  }

  lemma MergeNil(v: seq<Entry>)
    ensures Merge(v, []) == v && Merge([], v) == v
  {
  }

  /** What a listener of this type filter hears: its own list and the global one. */
  predicate TypeMatches(e: Entry, typeId: nat) {
    e.typeId == NO_TYPE || e.typeId == typeId
  }

  function Matching(v: seq<Entry>, typeId: nat): seq<Entry> {
    if v == [] then []
    else if TypeMatches(v[0], typeId) then [v[0]] + Matching(v[1..], typeId)
    else Matching(v[1..], typeId)
  }

  lemma {:induction false} MergeContents(globals: seq<Entry>, typeds: seq<Entry>)
    ensures multiset(Merge(globals, typeds)) == multiset(globals) + multiset(typeds)
    decreases |globals| + |typeds|
  {
    if globals != [] && typeds != [] {
      assert globals == [globals[0]] + globals[1..];
      assert typeds == [typeds[0]] + typeds[1..];
      if GlobalFirst(globals[0], typeds[0]) {
        MergeContents(globals[1..], typeds);
      } else {
        MergeContents(globals, typeds[1..]);
      }
    }
  }

  predicate NoneAbove(v: seq<Entry>, priority: int) {
    forall i :: 0 <= i < |v| ==> v[i].priority <= priority
  }

  lemma {:induction false} MergeNoneAbove(globals: seq<Entry>, typeds: seq<Entry>, priority: int)
    requires NoneAbove(globals, priority) && NoneAbove(typeds, priority)
    ensures NoneAbove(Merge(globals, typeds), priority)
    decreases |globals| + |typeds|
  {
    if globals != [] && typeds != [] {
      if GlobalFirst(globals[0], typeds[0]) {
        MergeNoneAbove(globals[1..], typeds, priority);
      } else {
        MergeNoneAbove(globals, typeds[1..], priority);
      }
    }
  }

  lemma {:induction false} MergeSorted(globals: seq<Entry>, typeds: seq<Entry>)
    requires SortedByPriority(globals) && SortedByPriority(typeds)
    ensures SortedByPriority(Merge(globals, typeds))
    decreases |globals| + |typeds|
  {
    if globals != [] && typeds != [] {
      if GlobalFirst(globals[0], typeds[0]) {
        MergeSorted(globals[1..], typeds);
        MergeNoneAbove(globals[1..], typeds, globals[0].priority);
      } else {
        MergeSorted(globals, typeds[1..]);
        MergeNoneAbove(globals, typeds[1..], typeds[0].priority);
      }
    }
  }

  /** The first entry of the other kind (global or typed) in the list. */
  function NextOther(v: seq<Entry>, global: bool): Option<Entry> {
    if v == [] then None
    else if (v[0].typeId == NO_TYPE) != global then Some(v[0])
    else NextOther(v[1..], global)
  }

  /** Tokens agree with the list order between each entry and the next one of the other kind, where priorities tie. */
  predicate TokensAgree(v: seq<Entry>) {
    v == [] ||
    (TokensAgree(v[1..]) &&
     var other := NextOther(v[1..], v[0].typeId == NO_TYPE);
     other.Some? && other.value.priority == v[0].priority ==>
       if v[0].typeId == NO_TYPE then v[0].token < other.value.token else v[0].token <= other.value.token)
  }

  lemma {:induction false} NextOtherHead(v: seq<Entry>, typeId: nat)
    requires forall e :: e in v ==> TypeMatches(e, typeId)
    requires typeId != NO_TYPE
    ensures NextOther(v, true) == if OfType(v, typeId) == [] then None else Some(OfType(v, typeId)[0])
    ensures NextOther(v, false) == if OfType(v, NO_TYPE) == [] then None else Some(OfType(v, NO_TYPE)[0])
  {
    if v != [] {
      assert v[0] in v;
      NextOtherHead(v[1..], typeId);
    }
  }

  lemma {:induction false} MergeGlobalHead(e: Entry, r: seq<Entry>, typeId: nat)
    requires e.typeId == NO_TYPE && typeId != NO_TYPE
    ensures var v := [e] + r;
      var m := Merge(OfType(v, NO_TYPE), OfType(v, typeId));
      if OfType(r, typeId) == [] || GlobalFirst(e, OfType(r, typeId)[0])
      then m == [e] + Merge(OfType(r, NO_TYPE), OfType(r, typeId))
      else m != [] && m[0] == OfType(r, typeId)[0]
  {
    var v := [e] + r;
    assert v[1..] == r;
    assert OfType(v, NO_TYPE) == [e] + OfType(r, NO_TYPE);
  }

  lemma {:induction false} MergeTypedHead(e: Entry, r: seq<Entry>, typeId: nat)
    requires e.typeId == typeId && typeId != NO_TYPE
    ensures var v := [e] + r;
      var m := Merge(OfType(v, NO_TYPE), OfType(v, typeId));
      if OfType(r, NO_TYPE) == [] || !GlobalFirst(OfType(r, NO_TYPE)[0], e)
      then m == [e] + Merge(OfType(r, NO_TYPE), OfType(r, typeId))
      else m != [] && m[0] == OfType(r, NO_TYPE)[0]
  {
    var v := [e] + r;
    assert v[1..] == r;
    assert OfType(v, typeId) == [e] + OfType(r, typeId);
  }

  lemma {:induction false} OfTypeHead(v: seq<Entry>, typeId: nat)
    ensures OfType(v, typeId) != [] ==> OfType(v, typeId)[0].typeId == typeId && OfType(v, typeId)[0] in v
  {
    OfTypeMembers(v, typeId);
    if OfType(v, typeId) != [] {
      assert OfType(v, typeId)[0] in OfType(v, typeId);
    }
  }

  /**
   Merging the two sublists gives back a priority-sorted list if and only if
   the tokens agree with its order wherever the kinds alternate at one priority.
   */
  lemma {:induction false} MergeIsListIff(v: seq<Entry>, typeId: nat)
    requires SortedByPriority(v) && typeId != NO_TYPE
    requires forall e :: e in v ==> TypeMatches(e, typeId)
    ensures Merge(OfType(v, NO_TYPE), OfType(v, typeId)) == v <==> TokensAgree(v)
  {
    if v != [] {
      assert v == [v[0]] + v[1..] && v[0] in v;
      assert forall x :: x in v[1..] ==> x in v;
      MergeIsListIff(v[1..], typeId);
      MergeIsListStep(v[0], v[1..], typeId);
    }
  }

  lemma {:induction false} MergeIsListStep(e: Entry, r: seq<Entry>, typeId: nat)
    requires SortedByPriority([e] + r) && typeId != NO_TYPE && TypeMatches(e, typeId)
    requires forall x :: x in r ==> TypeMatches(x, typeId)
    requires Merge(OfType(r, NO_TYPE), OfType(r, typeId)) == r <==> TokensAgree(r)
    ensures Merge(OfType([e] + r, NO_TYPE), OfType([e] + r, typeId)) == [e] + r <==> TokensAgree([e] + r)
  {
    var v := [e] + r;
    assert v[1..] == r;
    NextOtherHead(r, typeId);
    OfTypeHead(r, typeId);
    OfTypeHead(r, NO_TYPE);
    MergeHead(v, e, Merge(OfType(r, NO_TYPE), OfType(r, typeId)));
    if e.typeId == NO_TYPE {
      MergeGlobalHead(e, r, typeId);
      assert OfType(r, typeId) != [] ==> e.priority >= OfType(r, typeId)[0].priority;
    } else {
      MergeTypedHead(e, r, typeId);
      assert OfType(r, NO_TYPE) != [] ==> e.priority >= OfType(r, NO_TYPE)[0].priority;
    }
  }

  lemma MergeHead(v: seq<Entry>, e: Entry, rest: seq<Entry>)
    requires v != [] && v[0] == e
    ensures [e] + rest == v <==> rest == v[1..]
  {
    assert v == [e] + v[1..];
    assert ([e] + rest)[1..] == rest;
  }

  lemma {:induction false} SortedByTokenAgrees(v: seq<Entry>)
    requires SortedByToken(v)
    ensures TokensAgree(v)
  {
    if v != [] {
      SortedByTokenAgrees(v[1..]);
      NextOtherListed(v[1..], v[0].typeId == NO_TYPE);
    }
  }

  lemma {:induction false} NextOtherListed(v: seq<Entry>, global: bool)
    ensures NextOther(v, global).Some? ==> NextOther(v, global).value in v
  {
    if v != [] && (v[0].typeId == NO_TYPE) == global {
      NextOtherListed(v[1..], global);
    }
  }

  lemma {:induction false} MatchingMembers(v: seq<Entry>, typeId: nat)
    ensures forall e :: e in Matching(v, typeId) <==> e in v && TypeMatches(e, typeId)
  {
    if v != [] {
      MatchingMembers(v[1..], typeId);
      assert v == [v[0]] + v[1..];
    }
  }

  lemma {:induction false} MatchingSplits(v: seq<Entry>, typeId: nat)
    requires typeId != NO_TYPE
    ensures OfType(Matching(v, typeId), NO_TYPE) == OfType(v, NO_TYPE)
    ensures OfType(Matching(v, typeId), typeId) == OfType(v, typeId)
    ensures multiset(Matching(v, typeId)) == multiset(OfType(v, NO_TYPE)) + multiset(OfType(v, typeId))
  {
    if v != [] {
      MatchingSplits(v[1..], typeId);
      if TypeMatches(v[0], typeId) {
        assert Matching(v, typeId)[1..] == Matching(v[1..], typeId);
      }
    }
  }

  predicate AllBehind(e: Entry, v: seq<Entry>) {
    forall i :: 0 <= i < |v| ==> e.priority > v[i].priority || (e.priority == v[i].priority && e.token < v[i].token)
  }

  lemma {:induction false} MatchingStaysBehind(e: Entry, v: seq<Entry>, typeId: nat)
    ensures NoneAbove(v, e.priority) ==> NoneAbove(Matching(v, typeId), e.priority)
    ensures AllBehind(e, v) ==> AllBehind(e, Matching(v, typeId))
    ensures NoneAbove(v, e.priority) ==> NoneAbove(OfType(v, typeId), e.priority)
  {
    if v != [] {
      MatchingStaysBehind(e, v[1..], typeId);
    }
  }

  lemma {:induction false} MatchingSorted(v: seq<Entry>, typeId: nat)
    requires SortedByToken(v)
    ensures SortedByToken(Matching(v, typeId))
  {
    if v != [] {
      MatchingSorted(v[1..], typeId);
      MatchingStaysBehind(v[0], v[1..], typeId);
    }
  }

  lemma {:induction false} OfTypeSorted(v: seq<Entry>, typeId: nat)
    requires SortedByPriority(v)
    ensures SortedByPriority(OfType(v, typeId))
  {
    if v != [] {
      OfTypeSorted(v[1..], typeId);
      MatchingStaysBehind(v[0], v[1..], typeId);
    }
  }

  lemma {:induction false} InScopeCount(v: seq<Entry>, e: Entry, emitter: nat)
    ensures multiset(InScope(v, emitter))[e] == if ScopeMatches(e, emitter) then multiset(v)[e] else 0
  {
    if v != [] {
      InScopeCount(v[1..], e, emitter);
      assert v == [v[0]] + v[1..];
    }
  }

  lemma {:induction false} InScopeContents(v: seq<Entry>, w: seq<Entry>, emitter: nat)
    requires multiset(v) == multiset(w)
    ensures multiset(InScope(v, emitter)) == multiset(InScope(w, emitter))
  {
    forall e
      ensures multiset(InScope(v, emitter))[e] == multiset(InScope(w, emitter))[e]
    {
      InScopeCount(v, e, emitter);
      InScopeCount(w, e, emitter);
    }
  }

  lemma {:induction false} InScopeNoneAbove(v: seq<Entry>, priority: int, emitter: nat)
    requires NoneAbove(v, priority)
    ensures NoneAbove(InScope(v, emitter), priority)
  {
    if v != [] {
      InScopeNoneAbove(v[1..], priority, emitter);
    }
  }

  lemma {:induction false} InScopeSorted(v: seq<Entry>, emitter: nat)
    requires SortedByPriority(v)
    ensures SortedByPriority(InScope(v, emitter))
  {
    if v != [] {
      InScopeSorted(v[1..], emitter);
      InScopeNoneAbove(v[1..], v[0].priority, emitter);
    }
  }

  /** The calls a dispatch makes for a master list. */
  function Calls(v: seq<Entry>, typeId: nat, emitter: nat): seq<Entry> {
    InScope(Merge(OfType(v, NO_TYPE), OfType(v, typeId)), emitter)
  }

  /** Each listener whose type and scope match is called exactly once, in non-increasing priority. */
  lemma {:induction false} CallsAreMatching(v: seq<Entry>, typeId: nat, emitter: nat)
    requires SortedByPriority(v) && typeId != NO_TYPE
    ensures multiset(Calls(v, typeId, emitter)) == multiset(InScope(Matching(v, typeId), emitter))
    ensures SortedByPriority(Calls(v, typeId, emitter))
  {
    var m := Merge(OfType(v, NO_TYPE), OfType(v, typeId));
    MergeContents(OfType(v, NO_TYPE), OfType(v, typeId));
    MatchingSplits(v, typeId);
    InScopeContents(m, Matching(v, typeId), emitter);
    OfTypeSorted(v, NO_TYPE);
    OfTypeSorted(v, typeId);
    MergeSorted(OfType(v, NO_TYPE), OfType(v, typeId));
    InScopeSorted(m, emitter);
  }

  /** When listeners were inserted in token order, dispatch walks the master list and skips what does not match. */
  lemma {:induction false} CallsFollowRegistration(v: seq<Entry>, typeId: nat, emitter: nat)
    requires SortedByToken(v) && typeId != NO_TYPE
    ensures Calls(v, typeId, emitter) == InScope(Matching(v, typeId), emitter)
  {
    var r := Matching(v, typeId);
    MatchingMembers(v, typeId);
    MatchingSorted(v, typeId);
    MatchingSplits(v, typeId);
    SortedByTokenAgrees(r);
    MergeIsListIff(r, typeId);
  }

  lemma {:induction false} AgnosticLists(v: seq<Entry>, typeId: nat)
    requires typeId != NO_TYPE && forall i :: 0 <= i < |v| ==> v[i].typeId == NO_TYPE
    ensures OfType(v, NO_TYPE) == v && OfType(v, typeId) == []
  {
    if v != [] {
      AgnosticLists(v[1..], typeId);
    }
  }

  /** Listeners without a type filter, which is how the registry registers all of them, are called in list order. */
  lemma {:induction false} AgnosticCallsFollowList(v: seq<Entry>, typeId: nat, emitter: nat)
    requires typeId != NO_TYPE && forall i :: 0 <= i < |v| ==> v[i].typeId == NO_TYPE
    ensures Calls(v, typeId, emitter) == InScope(v, emitter)
  {
    AgnosticLists(v, typeId);
    MergeNil(v);
  }

  /** A listener deferred until start under an early token is called after one registered later. */
  lemma {:induction false} DeferredRegistrationCounterexample()
    ensures var later := Entry(NO_TYPE, ALL_SCOPES, 1, 0, 8);
      var deferred := Entry(NO_TYPE, ALL_SCOPES, 2, 0, 7);
      !SortedByToken(Inserted([later], deferred)) && Calls(Inserted([later], deferred), 5, 3) == [later, deferred]
  {
    var later := Entry(NO_TYPE, ALL_SCOPES, 1, 0, 8);
    var deferred := Entry(NO_TYPE, ALL_SCOPES, 2, 0, 7);
    assert InsertPos([later], 0) == 1;
    var v := Inserted([later], deferred);
    assert v == [later, deferred] && v[1..] == [deferred] && [deferred][1..] == [];
    AgnosticCallsFollowList(v, 5, 3);
    assert InScope([], 3) == [];
    assert InScope([deferred], 3) == [deferred];
  }

  /**
   A deferred typed listener keeps the token it reserved before start. Inserted
   behind a global listener that took a later token, it is called before it.
   */
  lemma GlobalThenTyped(g: Entry, t: Entry)
    requires g.typeId == NO_TYPE && t.typeId == 5
    ensures OfType([g, t], NO_TYPE) == [g] && OfType([g, t], 5) == [t]
  {
    OfTypeAppend([], g, NO_TYPE);
    OfTypeAppend([], g, 5);
    OfTypeAppend([g], t, NO_TYPE);
    OfTypeAppend([g], t, 5);
    assert [] + [g] == [g] && [g] + [t] == [g, t];
  }

  lemma TypedFirst(g: Entry, t: Entry)
    requires !GlobalFirst(g, t)
    ensures Merge([g], [t]) == [t, g]
  {
    assert Merge([g], []) == [g];
  }

  lemma BothInScope(g: Entry, t: Entry, emitter: nat)
    requires ScopeMatches(g, emitter) && ScopeMatches(t, emitter)
    ensures InScope([t, g], emitter) == [t, g]
  {
    assert InScope([], emitter) == [];
    assert InScope([g], emitter) == [g];
    assert [t, g][1..] == [g];
  }

  lemma InsertedBehind(g: Entry, t: Entry)
    requires g.priority == t.priority
    ensures Inserted([g], t) == [g, t]
  {
    assert InsertPos([g], t.priority) == 1;
  }

  lemma DeferredInsertionCounterexample()
    ensures var g := Entry(NO_TYPE, ALL_SCOPES, 1, 0, 8);
      var t := Entry(5, ALL_SCOPES, 2, 0, 7);
      var v := Inserted([g], t);
      v == [g, t] && !TokensAgree(v) && Calls(v, 5, 3) == [t, g]
  {
    var g := Entry(NO_TYPE, ALL_SCOPES, 1, 0, 8);
    var t := Entry(5, ALL_SCOPES, 2, 0, 7);
    InsertedBehind(g, t);
    assert [g, t][1..] == [t] && NextOther([t], true) == Some(t);
    GlobalThenTyped(g, t);
    TypedFirst(g, t);
    BothInScope(g, t, 3);
  }

  /** Walks the two sorted lists of the view with two indices; `calls` is the sequence of invoked listeners. */
  method DispatchFromView(pv: PhaseView, typeId: nat, emitter: nat) returns (calls: seq<Entry>)
    ensures calls == InScope(Merge(pv.global, Typed(pv, typeId)), emitter)
  {
    calls := [];
    var globals, typeds := pv.global, Typed(pv, typeId);
    var gi, ti := 0, 0;
    ghost var all := Walk(globals, typeds, 0, 0, emitter, []);
    WalkIsMerge(globals, typeds, 0, 0, emitter, []);
    assert globals[0..] == globals && typeds[0..] == typeds;
    while gi < |globals| && ti < |typeds|
      invariant gi <= |globals| && ti <= |typeds|
      invariant Walk(globals, typeds, gi, ti, emitter, calls) == all
      decreases |globals| - gi + |typeds| - ti
    {
      var g, t := globals[gi], typeds[ti];
      if g.priority > t.priority || (g.priority == t.priority && g.token < t.token) {
        if g.scope == ALL_SCOPES || g.scope == emitter {
          calls := calls + [g];
        }
        gi := gi + 1;
      } else {
        if t.scope == ALL_SCOPES || t.scope == emitter {
          calls := calls + [t];
        }
        ti := ti + 1;
      }
    }
    while gi < |globals|
      invariant gi <= |globals| && ti <= |typeds| && (gi == |globals| || ti == |typeds|)
      invariant Walk(globals, typeds, gi, ti, emitter, calls) == all
    {
      var g := globals[gi];
      gi := gi + 1;
      if g.scope == ALL_SCOPES || g.scope == emitter {
        calls := calls + [g];
      }
    }
    while ti < |typeds|
      invariant ti <= |typeds| && gi == |globals|
      invariant Walk(globals, typeds, gi, ti, emitter, calls) == all
    {
      var t := typeds[ti];
      ti := ti + 1;
      if t.scope == ALL_SCOPES || t.scope == emitter {
        calls := calls + [t];
      }
    }
  }

  /** Appends the entry, finds its place by binary search, and rotates it there. */
  method Rotated(v: seq<Entry>, e: Entry) returns (vec: seq<Entry>)
    requires SortedByPriority(v)
    ensures vec == Inserted(v, e)
  {
    vec := v + [e];
    var lo, hi := 0, |vec| - 1;
    InsertPosSplits(v, e.priority);
    ghost var pos := InsertPos(v, e.priority);
    while lo < hi
      invariant 0 <= lo <= pos <= hi <= |vec| - 1
    {
      var mid := (lo + hi) / 2;
      assert vec[mid] == v[mid];
      if e.priority > vec[mid].priority {
        hi := mid;
      } else {
        lo := mid + 1;
      }
    }
    vec := vec[..lo] + [vec[|vec| - 1]] + vec[lo..|vec| - 1];
  }

  lemma {:induction false} MatchingCount(v: seq<Entry>, e: Entry, typeId: nat)
    ensures multiset(Matching(v, typeId))[e] == if e.typeId == NO_TYPE || e.typeId == typeId then multiset(v)[e] else 0
  {
    if v != [] {
      MatchingCount(v[1..], e, typeId);
      assert v == [v[0]] + v[1..];
    }
  }

  /** Each listener is called as often as it is listed if it is for the bean's type and the emitter's scope, and else never. */
  lemma {:induction false} CallsCount(v: seq<Entry>, typeId: nat, emitter: nat)
    ensures forall e ::
      multiset(InScope(Matching(v, typeId), emitter))[e] ==
      (if (e.typeId == NO_TYPE || e.typeId == typeId) && (e.scope == ALL_SCOPES || e.scope == emitter)
       then multiset(v)[e] else 0)
  {
    forall e
      ensures multiset(InScope(Matching(v, typeId), emitter))[e] ==
        (if (e.typeId == NO_TYPE || e.typeId == typeId) && (e.scope == ALL_SCOPES || e.scope == emitter)
         then multiset(v)[e] else 0)
    {
      InScopeCount(Matching(v, typeId), e, emitter);
      MatchingCount(v, e, typeId);
    }
  }

  class ListenerStore {
    var phases: seq<seq<Entry>>
    var phaseSizes: seq<nat>
    var nextToken: nat
    var view: Option<View>

    ghost predicate Valid()
      reads this
    {
      && |phases| == |phaseSizes| == PHASE_COUNT
      && (forall p :: 0 <= p < PHASE_COUNT ==> phaseSizes[p] == |phases[p]| && SortedByPriority(phases[p]))
      && (view.Some? ==> |view.value| == PHASE_COUNT)
    }

    /** The published view is up to date. */
    ghost predicate Published()
      requires Valid()
      reads this
    {
      if view.None? then phases == [[], [], [], []]
      else forall p :: 0 <= p < PHASE_COUNT ==> PhaseViewOf(view.value[p], phases[p])
    }

    constructor ()
      ensures Valid() && Published()
    {
      phases := [[], [], [], []];
      phaseSizes := [0, 0, 0, 0];
      nextToken := 0;
      view := None;
    }

    method ReserveToken() returns (token: nat)
      requires Valid()
      modifies this`nextToken
      ensures Valid() && token == old(nextToken) && nextToken == token + 1
    {
      token := nextToken;
      nextToken := nextToken + 1;
    }

    /** Appends the entry and rotates it to its place behind all entries of its priority. */
    method Place(p: nat, e: Entry)
      requires Valid() && p < PHASE_COUNT
      modifies this`phases, this`phaseSizes
      ensures Valid() && phases == old(phases)[p := Inserted(old(phases[p]), e)]
      ensures multiset(phases[p]) == multiset(old(phases[p])) + multiset{e} && SortedByPriority(phases[p])
    {
      var vec := Rotated(phases[p], e);
      InsertPosSplits(phases[p], e.priority);
      InsertedContents(phases[p], e);
      InsertedKeepsSorted(phases[p], e);
      phases := phases[p := vec];
      phaseSizes := phaseSizes[p := phaseSizes[p] + 1];
    }

    method AddListener(p: nat, typeId: nat, scope: nat, callback: nat, priority: int) returns (token: nat)
      requires Valid() && p < PHASE_COUNT
      modifies this
      ensures Valid() && Published()
      ensures token == old(nextToken) && nextToken == token + 1
      ensures phases == old(phases)[p := Inserted(old(phases[p]), Entry(typeId, scope, callback, priority, token))]
    {
      token := nextToken;
      Place(p, Entry(typeId, scope, callback, priority, token));
      nextToken := nextToken + 1;
      RebuildView();
    }

    /** Same insertion under a token reserved earlier; the view stays as it is until FinalizeListeners. */
    method AddListenerDeferred(p: nat, typeId: nat, scope: nat, callback: nat, priority: int, token: nat)
      requires Valid() && p < PHASE_COUNT
      modifies this`phases, this`phaseSizes
      ensures Valid()
      ensures phases == old(phases)[p := Inserted(old(phases[p]), Entry(typeId, scope, callback, priority, token))]
    {
      Place(p, Entry(typeId, scope, callback, priority, token));
    }

    method FinalizeListeners()
      requires Valid()
      modifies this`view
      ensures Valid() && Published()
    {
      RebuildView();
    }

    method RebuildView()
      requires Valid()
      modifies this`view
      ensures Valid() && view.Some? && Published()
    {
      var newView: View := [];
      for p := 0 to PHASE_COUNT
        invariant |newView| == p
        invariant forall q :: 0 <= q < p ==> PhaseViewOf(newView[q], phases[q])
      {
        var pv := PhaseView([], map[]);
        for i := 0 to |phases[p]|
          invariant PhaseViewOf(pv, phases[p][..i])
        {
          var e := phases[p][i];
          assert phases[p][..i + 1] == phases[p][..i] + [e];
          forall t {
            OfTypeAppend(phases[p][..i], e, t);
          }
          if e.typeId == NO_TYPE {
            pv := pv.(global := pv.global + [e]);
          } else {
            pv := pv.(typed := pv.typed[e.typeId := Typed(pv, e.typeId) + [e]]);
          }
        }
        assert phases[p][..|phases[p]|] == phases[p];
        newView := newView + [pv];
      }
      view := Some(newView);
    }

    /** Removes the first listener with this token, if there is one. */
    method RemoveByToken(token: nat) returns (removed: bool)
      requires Valid()
      modifies this
      ensures Valid() && nextToken == old(nextToken)
      ensures removed <==> exists p, i :: 0 <= p < PHASE_COUNT && 0 <= i < |old(phases)[p]| && old(phases)[p][i].token == token
      ensures !removed ==> unchanged(this)
      ensures removed ==> Published() && exists p, i ::
                0 <= p < PHASE_COUNT && 0 <= i < |old(phases)[p]| && old(phases)[p][i].token == token
                && phases == old(phases)[p := old(phases)[p][..i] + old(phases)[p][i + 1..]]
    {
      for p := 0 to PHASE_COUNT
        invariant unchanged(this)
        invariant forall q, i :: 0 <= q < p && 0 <= i < |phases[q]| ==> phases[q][i].token != token
      {
        for i := 0 to |phases[p]|
          invariant unchanged(this)
          invariant forall j :: 0 <= j < i ==> phases[p][j].token != token
        {
          if phases[p][i].token == token {
            ghost var before: seq<seq<Entry>> := phases;
            phases := phases[p := phases[p][..i] + phases[p][i + 1..]];
            phaseSizes := phaseSizes[p := phaseSizes[p] - 1];
            assert before[p][i].token == token;
            RebuildView();
            return true;
          }
        }
      }
      return false;
    }

    method Clear()
      requires Valid()
      modifies this
      ensures Valid() && Published() && view == None && nextToken == old(nextToken)
    {
      phases := [[], [], [], []];
      phaseSizes := [0, 0, 0, 0];
      view := None;
    }

    /** Dispatch on an up-to-date store calls exactly what the master list of the phase prescribes. */
    method Dispatch(p: nat, typeId: nat, emitter: nat) returns (calls: seq<Entry>)
      requires Valid() && Published() && p < PHASE_COUNT && typeId != NO_TYPE
      ensures calls == Calls(phases[p], typeId, emitter)
      ensures multiset(calls) == multiset(InScope(Matching(phases[p], typeId), emitter)) && SortedByPriority(calls)
      ensures SortedByToken(phases[p]) ==> calls == InScope(Matching(phases[p], typeId), emitter)
      ensures forall e ::
        multiset(calls)[e] ==
        (if (e.typeId == NO_TYPE || e.typeId == typeId) && (e.scope == ALL_SCOPES || e.scope == emitter)
         then multiset(phases[p])[e] else 0)
    {
      CallsAreMatching(phases[p], typeId, emitter);
      CallsCount(phases[p], typeId, emitter);
      if SortedByToken(phases[p]) {
        CallsFollowRegistration(phases[p], typeId, emitter);
      }
      if phaseSizes[p] == 0 || view.None? {
        return [];
      }
      calls := DispatchFromView(view.value[p], typeId, emitter);
    }
  }
}
