/**
 Collection of lifecycle hooks: a depth-first walk over the public bases of a
 bean type that visits every type once, bases before the types deriving from
 them, and takes the constructor from the bean type alone.
 */
module HookScan {
  import opened Common
  import D = Digraph

  type Type = nat

  /** `beanParams` tells for each parameter whether its type is Bean<...>. */
  datatype Member = Member(
    id: nat, isConstructor: bool, beanParams: seq<bool>, isType: bool, isSpecial: bool,
    postConstruct: bool, preDestroy: bool)

  datatype Base = Base(type_: Type, isPublic: bool)

  datatype TypeInfo = TypeInfo(bases: seq<Base>, members: seq<Member>)

  type Types = map<Type, TypeInfo>

  datatype Phase = PostConstruct | PreDestroy

  function BasesOf(types: Types, t: Type): seq<Base> {
    if t in types then types[t].bases else []
  }

  function MembersOf(types: Types, t: Type): seq<Member> {
    if t in types then types[t].members else []
  }

  function PublicTypes(bases: seq<Base>): seq<Type> {
    if bases == [] then []
    else PublicTypes(bases[..|bases| - 1]) + (if bases[|bases| - 1].isPublic then [bases[|bases| - 1].type_] else [])
  }

  lemma {:induction false} PublicTypesMembers(bases: seq<Base>, t: Type)
    ensures t in PublicTypes(bases) <==> Base(t, true) in bases
  {
    if bases != [] {
      var n := |bases| - 1;
      PublicTypesMembers(bases[..n], t);
      assert bases == bases[..n] + [bases[n]];
    }
  }

  /** The public inheritance graph. */
  function Inheritance(types: Types): D.Graph<Type> {
    map t | t in types :: PublicTypes(types[t].bases)
  }

  /** A type never derives from itself: every base has a smaller rank. */
  ghost predicate Ranked(types: Types, rank: map<Type, nat>) {
    forall t, b :: t in types && b in types[t].bases && b.isPublic ==>
      t in rank && b.type_ in rank && rank[b.type_] < rank[t]
  }

  function RankOf(rank: map<Type, nat>, t: Type): nat {
    if t in rank then rank[t] else 0
  }

  // --- What is collected from one type ----------------------------------------------------

  predicate AllTrue(v: seq<bool>) {
    forall i :: 0 <= i < |v| ==> v[i]
  }

  /** Only Bean parameters, or none. */
  predicate Compatible(m: Member) {
    m.isConstructor && AllTrue(m.beanParams)
  }

  predicate IsHook(m: Member, withConstructors: bool, phase: Phase) {
    && !(withConstructors && m.isConstructor) && !m.isType && !m.isSpecial
    && (if phase == PostConstruct then m.postConstruct else m.preDestroy)
  }

  function HooksIn(members: seq<Member>, withConstructors: bool, phase: Phase): seq<nat> {
    if members == [] then []
    else
      var m := members[|members| - 1];
      HooksIn(members[..|members| - 1], withConstructors, phase) + (if IsHook(m, withConstructors, phase) then [m.id] else [])
  }

  function CompatibleIn(members: seq<Member>): seq<nat> {
    if members == [] then []
    else
      var m := members[|members| - 1];
      CompatibleIn(members[..|members| - 1]) + (if Compatible(m) then [m.id] else [])
  }

  /** The hooks of a list of base types, type by type. */
  function HooksOf(types: Types, order: seq<Type>, phase: Phase): seq<nat> {
    if order == [] then []
    else
      var n := |order| - 1;
      HooksOf(types, order[..n], phase) + HooksIn(MembersOf(types, order[n]), false, phase)
  }

  /** The ids of the members at these positions, in declaration order. */
  predicate PicksIn(members: seq<Member>, at: seq<nat>, ids: seq<nat>) {
    && |at| == |ids|
    && (forall k, l :: 0 <= k < l < |at| ==> at[k] < at[l])
    && (forall k :: 0 <= k < |at| ==> at[k] < |members| && ids[k] == members[at[k]].id)
  }

  /** The annotated members that are neither types nor special member functions nor looked at as constructors. */
  ghost predicate ListsAnnotated(members: seq<Member>, withConstructors: bool, post: seq<nat>, pre: seq<nat>) {
    && (exists at :: PicksIn(members, at, post) && forall i: nat :: i < |members| ==>
          (i in at <==> members[i].postConstruct && !members[i].isType && !members[i].isSpecial
                        && !(withConstructors && members[i].isConstructor)))
    && (exists at :: PicksIn(members, at, pre) && forall i: nat :: i < |members| ==>
          (i in at <==> members[i].preDestroy && !members[i].isType && !members[i].isSpecial
                        && !(withConstructors && members[i].isConstructor)))
  }

  /** The constructors whose parameters are all beans. */
  ghost predicate ListsBeanConstructors(members: seq<Member>, ctors: seq<nat>) {
    exists at :: PicksIn(members, at, ctors) && forall i: nat :: i < |members| ==>
      (i in at <==> members[i].isConstructor && forall j :: 0 <= j < |members[i].beanParams| ==> members[i].beanParams[j])
  }

  /** The positions of the members for which the flag is set. */
  ghost predicate At(chosen: seq<bool>, at: seq<nat>) {
    forall i: nat :: i in at <==> i < |chosen| && chosen[i]
  }

  lemma {:induction false} OneMorePosition(chosen: seq<bool>, at: seq<nat>, pick: bool)
    requires At(chosen, at)
    ensures At(chosen + [pick], if pick then at + [|chosen|] else at)
    ensures forall k :: 0 <= k < |at| ==> at[k] < |chosen|
  {
    forall k | 0 <= k < |at|
      ensures at[k] < |chosen|
    {
      assert at[k] in at;
    }
  }

  lemma {:induction false} OneMoreId(members: seq<Member>, at: seq<nat>, ids: seq<nat>)
    requires members != [] && PicksIn(members[..|members| - 1], at, ids)
    ensures PicksIn(members, at, ids) && PicksIn(members, at + [|members| - 1], ids + [members[|members| - 1].id])
  {
  }

  function HookFlags(members: seq<Member>, withConstructors: bool, phase: Phase): seq<bool> {
    seq(|members|, i requires 0 <= i < |members| => IsHook(members[i], withConstructors, phase))
  }

  function ConstructorFlags(members: seq<Member>): seq<bool> {
    seq(|members|, i requires 0 <= i < |members| => Compatible(members[i]))
  }

  /** The ids of the members whose flag is set. */
  function Chosen(members: seq<Member>, flags: seq<bool>): seq<nat>
    requires |flags| == |members|
  {
    if members == [] then []
    else
      var n := |members| - 1;
      Chosen(members[..n], flags[..n]) + (if flags[n] then [members[n].id] else [])
  }

  lemma {:induction false} ChosenPicked(members: seq<Member>, flags: seq<bool>) returns (at: seq<nat>)
    requires |flags| == |members|
    ensures PicksIn(members, at, Chosen(members, flags)) && At(flags, at)
  {
    at := [];
    if members != [] {
      var n := |members| - 1;
      at := ChosenPicked(members[..n], flags[..n]);
      OneMorePosition(flags[..n], at, flags[n]);
      OneMoreId(members, at, Chosen(members[..n], flags[..n]));
      assert flags[..n] + [flags[n]] == flags;
      at := if flags[n] then at + [n] else at;
    }
  }

  lemma {:induction false} HooksAreChosen(members: seq<Member>, withConstructors: bool, phase: Phase)
    ensures HooksIn(members, withConstructors, phase) == Chosen(members, HookFlags(members, withConstructors, phase))
  {
    if members != [] {
      var n := |members| - 1;
      HooksAreChosen(members[..n], withConstructors, phase);
      assert HookFlags(members, withConstructors, phase)[..n] == HookFlags(members[..n], withConstructors, phase);
    }
  }

  lemma {:induction false} ConstructorsAreChosen(members: seq<Member>)
    ensures CompatibleIn(members) == Chosen(members, ConstructorFlags(members))
  {
    if members != [] {
      var n := |members| - 1;
      ConstructorsAreChosen(members[..n]);
      assert ConstructorFlags(members)[..n] == ConstructorFlags(members[..n]);
    }
  }

  lemma {:induction false} HooksListed(members: seq<Member>, withConstructors: bool)
    ensures ListsAnnotated(members, withConstructors,
              HooksIn(members, withConstructors, PostConstruct), HooksIn(members, withConstructors, PreDestroy))
  {
    HooksAreChosen(members, withConstructors, PostConstruct);
    HooksAreChosen(members, withConstructors, PreDestroy);
    var post := ChosenPicked(members, HookFlags(members, withConstructors, PostConstruct));
    var pre := ChosenPicked(members, HookFlags(members, withConstructors, PreDestroy));
  }

  lemma {:induction false} ConstructorsListed(members: seq<Member>)
    ensures ListsBeanConstructors(members, CompatibleIn(members))
  {
    ConstructorsAreChosen(members);
    var ctors := ChosenPicked(members, ConstructorFlags(members));
  }

  /** What the scan of one type's members collects, by the members' annotations. */
  lemma {:induction false} ListedAsAnnotated(members: seq<Member>, withConstructors: bool)
    ensures ListsAnnotated(members, withConstructors,
              HooksIn(members, withConstructors, PostConstruct), HooksIn(members, withConstructors, PreDestroy))
    ensures ListsBeanConstructors(members, CompatibleIn(members))
  {
    HooksListed(members, withConstructors);
    ConstructorsListed(members);
  }

  // --- The walk ------------------------------------------------------------------------------

  class Scan {
    const types: Types
    ghost const rank: map<Type, nat>
    var visited: seq<Type>
    var compatibleConstructors: nat
    var conflict: bool
    var constructor_: Option<nat>
    var postConstruct: seq<nat>
    var preDestroy: seq<nat>
    /** The base types whose members have been scanned, in that order. */
    ghost var scanned: seq<Type>

    ghost predicate Valid()
      reads this
    {
      && Ranked(types, rank)
      && NoDuplicates(scanned) && D.Topological(Inheritance(types), scanned)
      && (forall t :: t in scanned ==> t in visited)
    }

    /** The hook lists hold the hooks of the scanned base types. */
    ghost predicate Collected()
      reads this
    {
      postConstruct == HooksOf(types, scanned, PostConstruct) && preDestroy == HooksOf(types, scanned, PreDestroy)
    }

    constructor (types: Types, ghost rank: map<Type, nat>)
      requires Ranked(types, rank)
      ensures Valid() && Collected() && this.types == types && this.rank == rank
      ensures visited == [] && scanned == [] && compatibleConstructors == 0 && !conflict && constructor_ == None
    {
      this.types, this.rank := types, rank;
      visited, scanned, postConstruct, preDestroy := [], [], [], [];
      compatibleConstructors, conflict, constructor_ := 0, false, None;
    }

    /** The constructors found so far, in order: the last one is taken, more than one is a conflict. */
    ghost predicate Counted(start: nat, startConflict: bool, startConstructor: Option<nat>, ctors: seq<nat>)
      reads this
    {
      && compatibleConstructors == start + |ctors|
      && conflict == (startConflict || (ctors != [] && compatibleConstructors >= 2))
      && constructor_ == if ctors == [] then startConstructor else Some(ctors[|ctors| - 1])
    }

    /** Scans one type's members; constructors only count for the bean type itself. */
    method ScanMembersOfType(t: Type, includeConstructors: bool)
      modifies this`compatibleConstructors, this`conflict, this`constructor_, this`postConstruct, this`preDestroy
      ensures postConstruct == old(postConstruct) + HooksIn(MembersOf(types, t), includeConstructors, PostConstruct)
      ensures preDestroy == old(preDestroy) + HooksIn(MembersOf(types, t), includeConstructors, PreDestroy)
      ensures Counted(old(compatibleConstructors), old(conflict), old(constructor_),
                if includeConstructors then CompatibleIn(MembersOf(types, t)) else [])
    {
      var members := MembersOf(types, t);
      for i := 0 to |members|
        invariant postConstruct == old(postConstruct) + HooksIn(members[..i], includeConstructors, PostConstruct)
        invariant preDestroy == old(preDestroy) + HooksIn(members[..i], includeConstructors, PreDestroy)
        invariant Counted(old(compatibleConstructors), old(conflict), old(constructor_),
                    if includeConstructors then CompatibleIn(members[..i]) else [])
      {
        assert members[..i + 1][..i] == members[..i];
        ScanMember(members[i], includeConstructors);
      }
      assert members[..|members|] == members;
    }

    method ScanMember(m: Member, includeConstructors: bool)
      modifies this`compatibleConstructors, this`conflict, this`constructor_, this`postConstruct, this`preDestroy
      ensures postConstruct == old(postConstruct) + (if IsHook(m, includeConstructors, PostConstruct) then [m.id] else [])
      ensures preDestroy == old(preDestroy) + (if IsHook(m, includeConstructors, PreDestroy) then [m.id] else [])
      ensures includeConstructors && Compatible(m) ==>
        && compatibleConstructors == old(compatibleConstructors) + 1 && constructor_ == Some(m.id)
        && conflict == (old(conflict) || compatibleConstructors >= 2)
      ensures !(includeConstructors && Compatible(m)) ==>
        && compatibleConstructors == old(compatibleConstructors)
        && constructor_ == old(constructor_) && conflict == old(conflict)
    {
      if includeConstructors && m.isConstructor {
        var compatible := IsCompatible(m.beanParams);
        if compatible {
          compatibleConstructors := compatibleConstructors + 1;
          if compatibleConstructors >= 2 {
            conflict := true;
          }
          constructor_ := Some(m.id);
        }
      } else if !m.isType && !m.isSpecial {
        if m.postConstruct {
          postConstruct := postConstruct + [m.id];
        }
        if m.preDestroy {
          preDestroy := preDestroy + [m.id];
        }
      }
    }

    method IsCompatible(params: seq<bool>) returns (compatible: bool)
      ensures compatible <==> AllTrue(params)
    {
      compatible := |params| == 0;
      if !compatible {
        compatible := true;
        for i := 0 to |params|
          invariant compatible && forall j :: 0 <= j < i ==> params[j]
        {
          if !params[i] {
            compatible := false;
            break;
          }
        }
      }
    }

    method ContainsType(v: seq<Type>, t: Type) returns (found: bool)
      ensures found <==> t in v
    {
      for i := 0 to |v|
        invariant t !in v[..i]
      {
        if v[i] == t {
          return true;
        }
      }
      found := false;
    }

    /**
     Scans everything `t` publicly derives from that has not been visited yet.
     A visited type that is not scanned is still open below on the recursion,
     so it is no base of `t`.
     */
    method ScanBaseHooks(t: Type)
      requires Valid() && Collected()
      requires forall v :: v in visited ==> v in scanned || RankOf(rank, v) >= RankOf(rank, t)
      modifies this`visited, this`postConstruct, this`preDestroy, this`scanned,
        this`compatibleConstructors, this`conflict, this`constructor_
      ensures Valid() && Collected()
      ensures old(scanned) <= scanned && forall b :: b in D.Succ(Inheritance(types), t) ==> b in scanned
      ensures forall i :: |old(scanned)| <= i < |scanned| ==> D.Leads(Inheritance(types), t, scanned[i])
      ensures forall v :: v in visited ==> v in old(visited) || v in scanned
      ensures forall v :: v in old(visited) ==> v in visited
      ensures compatibleConstructors == old(compatibleConstructors) && conflict == old(conflict)
      ensures constructor_ == old(constructor_)
      decreases RankOf(rank, t), 0
    {
      var bases := BasesOf(types, t);
      for i := 0 to |bases|
        invariant Valid() && Collected()
        invariant forall v :: v in visited ==> v in scanned || RankOf(rank, v) >= RankOf(rank, t)
        invariant old(scanned) <= scanned
        invariant forall k :: 0 <= k < i && bases[k].isPublic ==> bases[k].type_ in scanned
        invariant forall k :: |old(scanned)| <= k < |scanned| ==> D.Leads(Inheritance(types), t, scanned[k])
        invariant forall v :: v in visited ==> v in old(visited) || v in scanned
        invariant forall v :: v in old(visited) ==> v in visited
        invariant compatibleConstructors == old(compatibleConstructors) && conflict == old(conflict)
        invariant constructor_ == old(constructor_)
      {
        if bases[i].isPublic {
          VisitBase(t, bases[i].type_, bases[i]);
        }
      }
      forall b | b in D.Succ(Inheritance(types), t)
        ensures b in scanned
      {
        PublicTypesMembers(bases, b);
      }
    }

    /** One base, unless it was visited: first what it derives from, then its own members. */
    method VisitBase(t: Type, base: Type, ghost edge: Base)
      requires Valid() && Collected() && edge in BasesOf(types, t) && edge == Base(base, true)
      requires forall v :: v in visited ==> v in scanned || RankOf(rank, v) >= RankOf(rank, t)
      modifies this`visited, this`postConstruct, this`preDestroy, this`scanned,
        this`compatibleConstructors, this`conflict, this`constructor_
      ensures Valid() && Collected()
      ensures old(scanned) <= scanned && base in scanned
      ensures forall i :: |old(scanned)| <= i < |scanned| ==> D.Leads(Inheritance(types), t, scanned[i])
      ensures forall v :: v in visited ==> v in old(visited) || v in scanned
      ensures forall v :: v in old(visited) ==> v in visited
      ensures compatibleConstructors == old(compatibleConstructors) && conflict == old(conflict)
      ensures constructor_ == old(constructor_)
      decreases RankOf(rank, base), 2
    {
      PublicTypesMembers(BasesOf(types, t), base);
      D.EdgeLeads(Inheritance(types), t, base);
      var seen := ContainsType(visited, base);
      if !seen {
        ScanBase(t, base);
      }
    }

    method ScanBase(t: Type, base: Type)
      requires Valid() && Collected() && base !in visited
      requires D.Leads(Inheritance(types), t, base) && RankOf(rank, base) < RankOf(rank, t)
      requires forall v :: v in visited ==> v in scanned || RankOf(rank, v) >= RankOf(rank, t)
      modifies this`visited, this`postConstruct, this`preDestroy, this`scanned,
        this`compatibleConstructors, this`conflict, this`constructor_
      ensures Valid() && Collected()
      ensures old(scanned) <= scanned && base in scanned
      ensures forall i :: |old(scanned)| <= i < |scanned| ==> D.Leads(Inheritance(types), t, scanned[i])
      ensures forall v :: v in visited ==> v in old(visited) || v in scanned
      ensures forall v :: v in old(visited) ==> v in visited
      ensures compatibleConstructors == old(compatibleConstructors) && conflict == old(conflict)
      ensures constructor_ == old(constructor_)
      decreases RankOf(rank, base), 1
    {
      visited := visited + [base];
      ScanBaseHooks(base);
      BaseIsNew(t, base, |old(scanned)|);
      FinishBase(base);
    }

    method FinishBase(base: Type)
      requires Valid() && Collected() && base in visited && base !in scanned
      requires forall b :: b in D.Succ(Inheritance(types), base) ==> b in scanned
      modifies this`postConstruct, this`preDestroy, this`scanned,
        this`compatibleConstructors, this`conflict, this`constructor_
      ensures Valid() && Collected() && scanned == old(scanned) + [base]
      ensures compatibleConstructors == old(compatibleConstructors) && conflict == old(conflict)
      ensures constructor_ == old(constructor_)
    {
      ScanMembersOfType(base, false);
      ScannedOneMore(Inheritance(types), scanned, base);
      scanned := scanned + [base];
    }

    /** While its own bases were scanned, the base itself was not. */
    ghost method BaseIsNew(t: Type, base: Type, n: nat)
      requires Valid() && n <= |scanned| && base !in scanned[..n] && D.Leads(Inheritance(types), t, base)
      requires forall i :: n <= i < |scanned| ==> D.Leads(Inheritance(types), base, scanned[i])
      ensures base !in scanned
      ensures forall i :: n <= i < |scanned| ==> D.Leads(Inheritance(types), t, scanned[i])
    {
      forall i | n <= i < |scanned|
        ensures scanned[i] != base && D.Leads(Inheritance(types), t, scanned[i])
      {
        LeadsDown(types, rank, base, scanned[i]);
        D.LeadsTransitively(Inheritance(types), t, base, scanned[i]);
      }
    }
  }

  lemma {:induction false} PathDown(types: Types, rank: map<Type, nat>, p: seq<Type>, i: nat)
    requires Ranked(types, rank) && D.IsPath(Inheritance(types), p) && 0 < i < |p|
    ensures RankOf(rank, p[i]) < RankOf(rank, p[0])
    decreases i
  {
    assert p[i] in D.Succ(Inheritance(types), p[i - 1]);
    PublicTypesMembers(BasesOf(types, p[i - 1]), p[i]);
    if i > 1 {
      PathDown(types, rank, p, i - 1);
    }
  }

  lemma {:induction false} LeadsDown(types: Types, rank: map<Type, nat>, a: Type, b: Type)
    requires Ranked(types, rank) && D.Leads(Inheritance(types), a, b)
    ensures RankOf(rank, b) < RankOf(rank, a) && a != b
  {
    var p :| |p| >= 2 && p[0] == a && p[|p| - 1] == b && D.IsPath(Inheritance(types), p);
    PathDown(types, rank, p, |p| - 1);
  }

  lemma {:induction false} ScannedOneMore(g: D.Graph<Type>, order: seq<Type>, t: Type)
    requires NoDuplicates(order) && D.Topological(g, order) && t !in order
    requires forall b :: b in D.Succ(g, t) ==> b in order
    ensures NoDuplicates(order + [t]) && D.Topological(g, order + [t])
  {
    var more := order + [t];
    forall i, b | 0 <= i < |more| && b in D.Succ(g, more[i])
      ensures b in more[..i]
    {
      if i < |order| {
        assert more[..i] == order[..i];
      } else {
        assert more[..i] == order;
      }
    }
  }

  // --- The result ---------------------------------------------------------------------------

  datatype MemberScan = MemberScan(
    constructor_: Option<nat>, conflict: bool, postConstruct: seq<nat>, preDestroy: seq<nat>)

  /** All types the bean type is or publicly derives from, each once and every base before what derives from it. */
  ghost predicate BasesFirst(types: Types, t: Type, order: seq<Type>) {
    && NoDuplicates(order) && order != [] && order[|order| - 1] == t
    && D.Topological(Inheritance(types), order)
    && forall x :: x in order <==> D.Reaches(Inheritance(types), t, x)
  }

  /** The hooks type by type along the order, those of the bean type last. */
  function AllHooks(types: Types, order: seq<Type>, phase: Phase): seq<nat>
    requires order != []
  {
    var n := |order| - 1;
    HooksOf(types, order[..n], phase) + HooksIn(MembersOf(types, order[n]), true, phase)
  }

  method ScanMembers(types: Types, t: Type, ghost rank: map<Type, nat>) returns (r: MemberScan, ghost order: seq<Type>)
    requires Ranked(types, rank)
    ensures BasesFirst(types, t, order)
    ensures r.postConstruct == AllHooks(types, order, PostConstruct)
    ensures r.preDestroy == AllHooks(types, order, PreDestroy)
    ensures var ctors := CompatibleIn(MembersOf(types, t));
      && r.conflict == (|ctors| >= 2)
      && r.constructor_ == if ctors == [] then None else Some(ctors[|ctors| - 1])
  {
    var scan := new Scan(types, rank);
    scan.ScanBaseHooks(t);
    ghost var bases := scan.scanned;
    forall i | 0 <= i < |bases|
      ensures bases[i] != t
    {
      LeadsDown(types, rank, t, bases[i]);
    }
    ScannedOneMore(Inheritance(types), bases, t);
    order := bases + [t];
    ReachableAreListed(types, t, order);
    scan.ScanMembersOfType(t, true);
    assert order[..|order| - 1] == bases;
    r := MemberScan(scan.constructor_, scan.conflict, scan.postConstruct, scan.preDestroy);
  }

  lemma {:induction false} ReachableAreListed(types: Types, t: Type, order: seq<Type>)
    requires order != [] && order[|order| - 1] == t && D.Topological(Inheritance(types), order)
    requires forall i :: 0 <= i < |order| - 1 ==> D.Leads(Inheritance(types), t, order[i])
    ensures forall x :: x in order <==> D.Reaches(Inheritance(types), t, x)
  {
    forall x | D.Reaches(Inheritance(types), t, x)
      ensures x in order
    {
      D.TopologicalClosure(Inheritance(types), order, t, x);
    }
  }

  /** postConstruct runs the collected hooks in order. */
  method PostConstructThunk(r: MemberScan) returns (calls: seq<nat>)
    ensures calls == r.postConstruct
  {
    calls := [];
    for i := 0 to |r.postConstruct|
      invariant calls == r.postConstruct[..i]
    {
      calls := calls + [r.postConstruct[i]];
    }
  }

  /** preDestroy runs them in exactly the reverse order. */
  method PreDestroyThunk(r: MemberScan) returns (calls: seq<nat>)
    ensures calls == Reversed(r.preDestroy)
  {
    calls := [];
    var i := |r.preDestroy|;
    while i > 0
      invariant 0 <= i <= |r.preDestroy| && |calls| == |r.preDestroy| - i
      invariant forall k :: 0 <= k < |calls| ==> calls[k] == r.preDestroy[|r.preDestroy| - 1 - k]
    {
      calls := calls + [r.preDestroy[i - 1]];
      i := i - 1;
    }
  }

  /** The hooks a type contributes. */
  function OwnHooks(types: Types, order: seq<Type>, x: Type, phase: Phase): seq<nat>
    requires order != []
  {
    HooksIn(MembersOf(types, x), x == order[|order| - 1], phase)
  }

  lemma Regroup(a: seq<nat>, b: seq<nat>, c: seq<nat>, d: seq<nat>)
    ensures a + b + c + d == a + b + (c + d)
  {
  }

  lemma {:induction false} HooksSplit(types: Types, order: seq<Type>, i: nat, phase: Phase) returns (after: seq<nat>)
    requires i < |order|
    ensures HooksOf(types, order, phase)
      == HooksOf(types, order[..i], phase) + HooksIn(MembersOf(types, order[i]), false, phase) + after
    decreases |order|
  {
    var n := |order| - 1;
    after := [];
    if i < n {
      var rest := HooksSplit(types, order[..n], i, phase);
      var last := HooksIn(MembersOf(types, order[n]), false, phase);
      assert order[..n][..i] == order[..i];
      Regroup(HooksOf(types, order[..i], phase), HooksIn(MembersOf(types, order[i]), false, phase), rest, last);
      after := rest + last;
    }
  }

  /** The part of the list before a type's hooks, and the part behind them. */
  lemma {:induction false} HooksAt(types: Types, order: seq<Type>, i: nat, phase: Phase) returns (c: seq<nat>)
    requires i < |order|
    ensures AllHooks(types, order, phase)
      == HooksOf(types, order[..i], phase) + HooksIn(MembersOf(types, order[i]), i == |order| - 1, phase) + c
  {
    var n := |order| - 1;
    c := [];
    if i < n {
      assert order[..n][..i] == order[..i] && order[..n][i] == order[i];
      var rest := HooksSplit(types, order[..n], i, phase);
      var last := HooksIn(MembersOf(types, order[n]), true, phase);
      Regroup(HooksOf(types, order[..i], phase), HooksIn(MembersOf(types, order[i]), false, phase), rest, last);
      c := rest + last;
    }
  }

  /** The part of the list between two of the bounds. */
  predicate Tile(all: seq<nat>, bounds: seq<nat>, i: nat, part: seq<nat>) {
    i + 1 < |bounds| && bounds[i] <= bounds[i + 1] <= |all| && all[bounds[i]..bounds[i + 1]] == part
  }

  lemma {:induction false} TileStays(all: seq<nat>, bounds: seq<nat>, i: nat, part: seq<nat>, more: seq<nat>, bound: nat)
    requires Tile(all, bounds, i, part)
    ensures Tile(all + more, bounds + [bound], i, part)
  {
  }

  /** One more type: its part goes behind the others. */
  lemma {:induction false} OneMoreTile(all: seq<nat>, lower: seq<nat>, parts: seq<seq<nat>>, last: seq<nat>)
    returns (bounds: seq<nat>)
    requires Tiles(all, lower, parts)
    ensures Tiles(all + last, bounds, parts + [last])
  {
    var n := |parts|;
    bounds := lower + [|all| + |last|];
    forall i: nat | i < n + 1
      ensures Tile(all + last, bounds, i, (parts + [last])[i])
    {
      if i < n {
        TileStays(all, lower, i, parts[i], last, |all| + |last|);
      }
    }
  }

  /** The list is these parts one after the other, and nothing else. */
  predicate Tiles(all: seq<nat>, bounds: seq<nat>, parts: seq<seq<nat>>) {
    && |bounds| == |parts| + 1 && bounds[0] == 0 && bounds[|parts|] == |all|
    && forall i: nat :: i < |parts| ==> Tile(all, bounds, i, parts[i])
  }

  function PartsOf(types: Types, order: seq<Type>, phase: Phase): seq<seq<nat>> {
    seq(|order|, i requires 0 <= i < |order| => HooksIn(MembersOf(types, order[i]), false, phase))
  }

  lemma {:induction false} BaseTiles(types: Types, order: seq<Type>, phase: Phase) returns (bounds: seq<nat>)
    ensures Tiles(HooksOf(types, order, phase), bounds, PartsOf(types, order, phase))
  {
    bounds := [0];
    if order != [] {
      var n := |order| - 1;
      var last := HooksIn(MembersOf(types, order[n]), false, phase);
      var lower := BaseTiles(types, order[..n], phase);
      bounds := OneMoreTile(HooksOf(types, order[..n], phase), lower, PartsOf(types, order[..n], phase), last);
      assert PartsOf(types, order[..n], phase) + [last] == PartsOf(types, order, phase);
    }
  }

  /**
   The collected list is, type by type in the order of the walk, what each type
   contributes, constructors being left out for the bean type, and nothing else.
   */
  lemma {:induction false} HooksTile(types: Types, order: seq<Type>, phase: Phase) returns (bounds: seq<nat>)
    requires order != []
    ensures Tiles(AllHooks(types, order, phase), bounds,
              seq(|order|, i requires 0 <= i < |order| => HooksIn(MembersOf(types, order[i]), i == |order| - 1, phase)))
  {
    var n := |order| - 1;
    var last := HooksIn(MembersOf(types, order[n]), true, phase);
    var lower := BaseTiles(types, order[..n], phase);
    bounds := OneMoreTile(HooksOf(types, order[..n], phase), lower, PartsOf(types, order[..n], phase), last);
    assert PartsOf(types, order[..n], phase) + [last]
      == seq(|order|, i requires 0 <= i < |order| => HooksIn(MembersOf(types, order[i]), i == |order| - 1, phase));
  }

  lemma {:induction false} BaseStandsBefore(types: Types, t: Type, order: seq<Type>, derived: Type, base: Type)
    returns (j: nat, i: nat)
    requires BasesFirst(types, t, order) && derived in order && D.Leads(Inheritance(types), derived, base)
    ensures j < i < |order| && order[j] == base && order[i] == derived
    ensures base != order[|order| - 1] && (derived == order[|order| - 1] <==> i == |order| - 1)
  {
    i :| 0 <= i < |order| && order[i] == derived;
    D.LeadsBackwards(Inheritance(types), order, i, base);
    j :| 0 <= j < i && order[j] == base;
  }

  /**
   A base's hooks stand before those of every type deriving from it: the whole
   list is a part that contains all of the base's, followed by the derived type's.
   */
  lemma {:induction false} BaseHooksFirst(types: Types, t: Type, order: seq<Type>, derived: Type, base: Type, phase: Phase)
    returns (a: seq<nat>, b: seq<nat>, c: seq<nat>)
    requires BasesFirst(types, t, order) && derived in order && D.Leads(Inheritance(types), derived, base)
    ensures AllHooks(types, order, phase)
      == a + OwnHooks(types, order, base, phase) + b + OwnHooks(types, order, derived, phase) + c
  {
    var j, i := BaseStandsBefore(types, t, order, derived, base);
    c := HooksAt(types, order, i, phase);
    assert order[..i][..j] == order[..j] && order[..i][j] == base;
    a := HooksOf(types, order[..j], phase);
    b := HooksSplit(types, order[..i], j, phase);
  }
}
