/**
 The merge at registry start: contribution spans from any number of discovery
 points, with repetition and overlap, become one descriptor table, one list of
 candidates and the links between descriptors.
 */
module ContributionMerge {
  import opened Common

  type Identity = nat
  type DescriptorId = nat

  datatype Lifetime = Singleton | Prototype | Session | ThreadLocal

  // kNoFactoryMethod
  const NO_LINK: Identity := 0

  /** `payload` stands for everything a descriptor carries that the merge only copies. */
  datatype Contribution = Contribution(
    identity: Identity, exposedType: string, beanName: string, lifetime: Lifetime, payload: nat,
    isExposedAlias: bool, aliasOf: Identity, factory: Identity)

  datatype Link = Link(source: DescriptorId, target: Identity)

  datatype Candidate = Candidate(exposedType: string, beanName: string, id: DescriptorId)

  datatype Merged = Merged(
    descriptors: seq<Contribution>,
    candidates: seq<Candidate>,
    primaries: map<DescriptorId, DescriptorId>,
    factories: map<DescriptorId, DescriptorId>)

  datatype Outcome = Started(merged: Merged) | IdentityCollision | FactoryNotFound | PrimaryNotFound

  // --- What the merge means ------------------------------------------------------------------

  /** The position of the contribution with this identity. */
  function Find(v: seq<Contribution>, identity: Identity): Option<DescriptorId> {
    if v == [] then None
    else if v[|v| - 1].identity == identity && Find(v[..|v| - 1], identity).None? then Some(|v| - 1)
    else Find(v[..|v| - 1], identity)
  }

  /** The first occurrence of every identity, in order. */
  function Firsts(v: seq<Contribution>): seq<Contribution> {
    if v == [] then []
    else
      var firsts, c := Firsts(v[..|v| - 1]), v[|v| - 1];
      if Find(firsts, c.identity).Some? then firsts else firsts + [c]
  }

  /** What a repeated contribution is compared on. */
  predicate Agree(a: Contribution, b: Contribution) {
    a.exposedType == b.exposedType && a.beanName == b.beanName && a.lifetime == b.lifetime
  }

  ghost predicate NoCollision(v: seq<Contribution>) {
    forall a, b :: a in v && b in v && a.identity == b.identity ==> Agree(a, b)
  }

  function Flatten(spans: seq<seq<Contribution>>): seq<Contribution> {
    if spans == [] then [] else Flatten(spans[..|spans| - 1]) + spans[|spans| - 1]
  }

  /** Some discovery point contributed it. */
  predicate InSpans(spans: seq<seq<Contribution>>, c: Contribution) {
    exists i :: 0 <= i < |spans| && c in spans[i]
  }

  function CandidatesOf(v: seq<Contribution>): seq<Candidate> {
    seq(|v|, i requires 0 <= i < |v| => Candidate(v[i].exposedType, v[i].beanName, i))
  }

  /** One candidate per descriptor, under its exposed type and bean name. */
  predicate CandidatesRight(v: seq<Contribution>, candidates: seq<Candidate>) {
    |candidates| == |v| &&
    forall i :: 0 <= i < |v| ==> candidates[i] == Candidate(v[i].exposedType, v[i].beanName, i)
  }

  /** What each descriptor is linked to; an identity of its own makes a link, in table order. */
  function LinksOf(targets: seq<Identity>): seq<Link> {
    if targets == [] then []
    else
      var n := |targets| - 1;
      LinksOf(targets[..n]) + (if targets[n] != NO_LINK then [Link(n, targets[n])] else [])
  }

  function FactoryTargets(v: seq<Contribution>): seq<Identity> {
    seq(|v|, i requires 0 <= i < |v| => v[i].factory)
  }

  function AliasTargets(v: seq<Contribution>): seq<Identity> {
    seq(|v|, i requires 0 <= i < |v| => if v[i].isExposedAlias then v[i].aliasOf else NO_LINK)
  }

  /** Primaries link to themselves. */
  function OwnPrimaries(v: seq<Contribution>): map<DescriptorId, DescriptorId> {
    map i: DescriptorId | 0 <= i < |v| && !v[i].isExposedAlias :: i
  }

  function Resolved(v: seq<Contribution>, links: seq<Link>, m: map<DescriptorId, DescriptorId>)
    : Option<map<DescriptorId, DescriptorId>>
  {
    if links == [] then Some(m)
    else
      var n := |links| - 1;
      var before := Resolved(v, links[..n], m);
      var target := Find(v, links[n].target);
      if before.None? || target.None? then None else Some(before.value[links[n].source := target.value])
  }

  /** The whole result is a function of the deduplicated list. */
  function ResultOf(v: seq<Contribution>): Outcome {
    var factories := Resolved(v, LinksOf(FactoryTargets(v)), map[]);
    var primaries := Resolved(v, LinksOf(AliasTargets(v)), OwnPrimaries(v));
    if factories.None? then FactoryNotFound
    else if primaries.None? then PrimaryNotFound
    else Started(Merged(v, CandidatesOf(v), primaries.value, factories.value))
  }

  // --- Properties of the specification ---------------------------------------------------------

  lemma {:induction false} FindMeans(v: seq<Contribution>, identity: Identity)
    ensures Find(v, identity).Some? <==> exists c :: c in v && c.identity == identity
    ensures Find(v, identity).Some? ==>
      && Find(v, identity).value < |v| && v[Find(v, identity).value].identity == identity
      && forall j :: 0 <= j < Find(v, identity).value ==> v[j].identity != identity
  {
    if v != [] {
      var n := |v| - 1;
      FindMeans(v[..n], identity);
      assert v == v[..n] + [v[n]];
      assert v[n] in v;
    }
  }

  predicate DistinctIdentities(v: seq<Contribution>) {
    forall i, j :: 0 <= i < j < |v| ==> v[i].identity != v[j].identity
  }

  lemma {:induction false} FirstsMembers(v: seq<Contribution>)
    ensures DistinctIdentities(Firsts(v))
    ensures forall c :: c in Firsts(v) ==> c in v
    ensures forall c :: c in v ==> Find(Firsts(v), c.identity).Some?
  {
    if v != [] {
      var n := |v| - 1;
      var firsts := Firsts(v[..n]);
      FirstsMembers(v[..n]);
      assert v == v[..n] + [v[n]];
      FindMeans(firsts, v[n].identity);
      forall c | c in v
        ensures Find(Firsts(v), c.identity).Some?
      {
        FindMeans(firsts, c.identity);
        FindMeans(Firsts(v), c.identity);
        if Find(firsts, c.identity).Some? {
          var x :| x in firsts && x.identity == c.identity;
          assert x in Firsts(v);
        } else {
          assert v[n] in Firsts(v);
        }
      }
    }
  }

  /** No earlier contribution has the identity of this one. */
  predicate IsFirst(v: seq<Contribution>, i: nat) {
    i < |v| && forall j :: 0 <= j < i ==> v[j].identity != v[i].identity
  }

  /** `w` holds contributions at these positions, in the order of the list, each the first of its identity. */
  predicate PicksFirst(v: seq<Contribution>, at: seq<nat>, w: seq<Contribution>) {
    && |at| == |w| && (forall k, l :: 0 <= k < l < |at| ==> at[k] < at[l])
    && (forall k :: 0 <= k < |at| ==> IsFirst(v, at[k]) && w[k] == v[at[k]])
  }

  lemma {:induction false} PicksInLonger(v: seq<Contribution>, at: seq<nat>, w: seq<Contribution>, n: nat)
    requires |v| == n + 1 && PicksFirst(v[..n], at, w)
    ensures PicksFirst(v, at, w)
    ensures IsFirst(v, n) ==> PicksFirst(v, at + [n], w + [v[n]])
  {
    forall k | 0 <= k < |at|
      ensures IsFirst(v, at[k]) && at[k] < n && w[k] == v[at[k]]
    {
      assert IsFirst(v[..n], at[k]);
    }
  }

  lemma {:induction false} FirstsAreFirst(v: seq<Contribution>) returns (at: seq<nat>)
    ensures PicksFirst(v, at, Firsts(v))
  {
    at := [];
    if v != [] {
      var n: nat := |v| - 1;
      at := FirstsAreFirst(v[..n]);
      PicksInLonger(v, at, Firsts(v[..n]), n);
      if Find(Firsts(v[..n]), v[n].identity).None? {
        NewIsFirst(v);
        at := at + [n];
      }
    }
  }

  lemma {:induction false} NewIsFirst(v: seq<Contribution>)
    requires v != [] && Find(Firsts(v[..|v| - 1]), v[|v| - 1].identity).None?
    ensures IsFirst(v, |v| - 1)
  {
    var n := |v| - 1;
    FirstsMembers(v[..n]);
    forall j | 0 <= j < n
      ensures v[j].identity != v[n].identity
    {
      assert v[..n][j] in v[..n];
    }
  }

  /** A list without repetition is its own deduplication. */
  lemma {:induction false} FirstsOfDistinct(v: seq<Contribution>)
    requires DistinctIdentities(v)
    ensures Firsts(v) == v
  {
    if v != [] {
      var n := |v| - 1;
      var w := v[..n];
      FirstsOfDistinct(w);
      FindMeans(w, v[n].identity);
      forall c | c in w
        ensures c.identity != v[n].identity
      {
        var j :| 0 <= j < n && v[j] == c;
      }
      assert v == w + [v[n]];
    }
  }

  lemma {:induction false} FirstsIdempotent(v: seq<Contribution>)
    ensures Firsts(Firsts(v)) == Firsts(v)
  {
    FirstsMembers(v);
    FirstsOfDistinct(Firsts(v));
  }

  lemma {:induction false} FirstsAppend(v: seq<Contribution>, c: Contribution)
    ensures Firsts(v + [c]) == if Find(Firsts(v), c.identity).Some? then Firsts(v) else Firsts(v) + [c]
  {
    assert (v + [c])[..|v + [c]| - 1] == v;
  }

  lemma {:induction false} NoCollisionAmongFirsts(v: seq<Contribution>)
    requires NoCollision(v)
    ensures NoCollision(Firsts(v))
  {
    FirstsMembers(v);
  }

  /**
   Starting from any spans gives what starting from the deduplicated list
   gives, in particular the same descriptor ids, candidates and links.
   */
  lemma {:induction false} MergeIsIdempotent(spans: seq<seq<Contribution>>)
    requires NoCollision(Flatten(spans))
    ensures var once := Firsts(Flatten(spans));
      NoCollision(once) && Firsts(Flatten([once])) == once && ResultOf(Firsts(Flatten([once]))) == ResultOf(once)
  {
    var once := Firsts(Flatten(spans));
    NoCollisionAmongFirsts(Flatten(spans));
    FirstsIdempotent(Flatten(spans));
    assert [once][..0] == [] && Flatten([]) == [];
    assert Flatten([once]) == [] + once == once;
  }

  // --- What the links mean ---------------------------------------------------------------------

  predicate Contributes(v: seq<Contribution>, identity: Identity) {
    exists c :: c in v && c.identity == identity
  }

  /** The position of the identity's first contribution. */
  ghost predicate IsPosition(v: seq<Contribution>, identity: Identity, i: DescriptorId) {
    i < |v| && v[i].identity == identity && forall j :: 0 <= j < i ==> v[j].identity != identity
  }

  ghost predicate MissesFactory(v: seq<Contribution>) {
    exists c :: c in v && c.factory != NO_LINK && !Contributes(v, c.factory)
  }

  ghost predicate MissesPrimary(v: seq<Contribution>) {
    exists c :: c in v && c.isExposedAlias && c.aliasOf != NO_LINK && !Contributes(v, c.aliasOf)
  }

  /** Every factory product maps to its factory method's descriptor, and nothing else maps to one. */
  ghost predicate FactoriesRight(v: seq<Contribution>, factories: map<DescriptorId, DescriptorId>) {
    && (forall i: DescriptorId :: i in factories <==> i < |v| && v[i].factory != NO_LINK)
    && (forall i: DescriptorId :: i in factories ==> IsPosition(v, v[i].factory, factories[i]))
  }

  /** A primary maps to itself, an alias to the descriptor it exposes. */
  ghost predicate PrimariesRight(v: seq<Contribution>, primaries: map<DescriptorId, DescriptorId>) {
    && (forall i: DescriptorId :: i in primaries <==> i < |v| && (v[i].isExposedAlias ==> v[i].aliasOf != NO_LINK))
    && (forall i: DescriptorId :: i in primaries ==>
          if v[i].isExposedAlias then IsPosition(v, v[i].aliasOf, primaries[i]) else primaries[i] == i)
  }

  /** Every link is in the map, at the position of its target; entries without a link stay. */
  ghost predicate LinkedTo(
    v: seq<Contribution>, targets: seq<Identity>, m: map<DescriptorId, DescriptorId>, r: map<DescriptorId, DescriptorId>)
  {
    && (forall x: DescriptorId :: x in r <==> x in m || (x < |targets| && targets[x] != NO_LINK))
    && (forall x: DescriptorId :: x in r ==>
          if x < |targets| && targets[x] != NO_LINK then IsPosition(v, targets[x], r[x]) else r[x] == m[x])
  }

  ghost predicate MissesTarget(v: seq<Contribution>, targets: seq<Identity>) {
    exists x :: 0 <= x < |targets| && targets[x] != NO_LINK && !Contributes(v, targets[x])
  }

  lemma {:induction false} ResolvedStep(v: seq<Contribution>, targets: seq<Identity>, m: map<DescriptorId, DescriptorId>)
    requires targets != []
    ensures var n := |targets| - 1;
      var before := Resolved(v, LinksOf(targets[..n]), m);
      Resolved(v, LinksOf(targets), m) ==
        if targets[n] == NO_LINK then before
        else if before.None? || Find(v, targets[n]).None? then None
        else Some(before.value[n := Find(v, targets[n]).value])
  {
    var n := |targets| - 1;
    var links := LinksOf(targets);
    if targets[n] == NO_LINK {
      assert links == LinksOf(targets[..n]);
    } else {
      assert links[..|links| - 1] == LinksOf(targets[..n]);
    }
  }

  lemma {:induction false} LinkedStep(
    v: seq<Contribution>, targets: seq<Identity>, m: map<DescriptorId, DescriptorId>, r: map<DescriptorId, DescriptorId>)
    requires targets != [] && LinkedTo(v, targets[..|targets| - 1], m, r)
    ensures var n := |targets| - 1;
      && (targets[n] == NO_LINK ==> LinkedTo(v, targets, m, r))
      && (targets[n] != NO_LINK && Find(v, targets[n]).Some? ==> LinkedTo(v, targets, m, r[n := Find(v, targets[n]).value]))
  {
    FindMeans(v, targets[|targets| - 1]);
  }

  lemma {:induction false} ResolvedMeans(v: seq<Contribution>, targets: seq<Identity>, m: map<DescriptorId, DescriptorId>)
    ensures Resolved(v, LinksOf(targets), m).None? <==> MissesTarget(v, targets)
    ensures Resolved(v, LinksOf(targets), m).Some? ==> LinkedTo(v, targets, m, Resolved(v, LinksOf(targets), m).value)
  {
    if targets != [] {
      var n := |targets| - 1;
      ResolvedMeans(v, targets[..n], m);
      TargetsSplit(v, targets);
      ResolvedStep(v, targets, m);
      FindMeans(v, targets[n]);
      if Resolved(v, LinksOf(targets[..n]), m).Some? {
        LinkedStep(v, targets, m, Resolved(v, LinksOf(targets[..n]), m).value);
      }
    }
  }

  lemma {:induction false} TargetsSplit(v: seq<Contribution>, targets: seq<Identity>)
    requires targets != []
    ensures var n := |targets| - 1;
      MissesTarget(v, targets) <==>
        MissesTarget(v, targets[..n]) || (targets[n] != NO_LINK && !Contributes(v, targets[n]))
  {
    var n := |targets| - 1;
    if MissesTarget(v, targets[..n]) {
      var x :| 0 <= x < n && targets[..n][x] != NO_LINK && !Contributes(v, targets[..n][x]);
      assert targets[x] != NO_LINK;
    }
    if x :| 0 <= x < n && targets[x] != NO_LINK && !Contributes(v, targets[x]) {
      assert targets[..n][x] == targets[x];
    }
  }

  lemma {:induction false} MissingMeans(v: seq<Contribution>)
    ensures MissesTarget(v, FactoryTargets(v)) <==> MissesFactory(v)
    ensures MissesTarget(v, AliasTargets(v)) <==> MissesPrimary(v)
  {
    if c :| c in v && c.factory != NO_LINK && !Contributes(v, c.factory) {
      var x :| 0 <= x < |v| && v[x] == c;
      assert FactoryTargets(v)[x] != NO_LINK;
    }
    if c :| c in v && c.isExposedAlias && c.aliasOf != NO_LINK && !Contributes(v, c.aliasOf) {
      var x :| 0 <= x < |v| && v[x] == c;
      assert AliasTargets(v)[x] != NO_LINK;
    }
  }

  lemma CandidatesMean(v: seq<Contribution>)
    ensures CandidatesRight(v, CandidatesOf(v))
  {
  }

  /**
   Start fails for a missing factory exactly when some factory identity has no
   contribution, for a missing primary exactly when, with all factories there,
   some alias target has none. Otherwise every link is the position of the
   contribution it names.
   */
  lemma {:induction false} ResultMeans(v: seq<Contribution>)
    ensures ResultOf(v) == FactoryNotFound <==> MissesFactory(v)
    ensures ResultOf(v) == PrimaryNotFound <==> !MissesFactory(v) && MissesPrimary(v)
    ensures ResultOf(v).Started? <==> !MissesFactory(v) && !MissesPrimary(v)
    ensures ResultOf(v).Started? ==>
      var m := ResultOf(v).merged;
      && m.descriptors == v && CandidatesRight(v, m.candidates)
      && FactoriesRight(v, m.factories) && PrimariesRight(v, m.primaries)
  {
    CandidatesMean(v);
    FactoriesMean(v);
    PrimariesMean(v);
  }

  lemma {:induction false} FactoriesMean(v: seq<Contribution>)
    ensures var m := Resolved(v, LinksOf(FactoryTargets(v)), map[]);
      (m.None? <==> MissesFactory(v)) && (m.Some? ==> FactoriesRight(v, m.value))
  {
    MissingMeans(v);
    ResolvedMeans(v, FactoryTargets(v), map[]);
  }

  lemma {:induction false} PrimariesMean(v: seq<Contribution>)
    ensures var m := Resolved(v, LinksOf(AliasTargets(v)), OwnPrimaries(v));
      (m.None? <==> MissesPrimary(v)) && (m.Some? ==> PrimariesRight(v, m.value))
  {
    MissingMeans(v);
    ResolvedMeans(v, AliasTargets(v), OwnPrimaries(v));
  }

  function FoundAfter(v: seq<Contribution>, c: Contribution, x: Identity): Option<DescriptorId> {
    if Find(v, x).Some? then Find(v, x) else if x == c.identity then Some(|v|) else None
  }

  lemma {:induction false} AppendedTable(v: seq<Contribution>, c: Contribution)
    ensures forall x :: Find(v + [c], x) == FoundAfter(v, c, x)
    ensures CandidatesOf(v + [c]) == CandidatesOf(v) + [Candidate(c.exposedType, c.beanName, |v|)]
    ensures LinksOf(FactoryTargets(v + [c])) ==
      LinksOf(FactoryTargets(v)) + (if c.factory != NO_LINK then [Link(|v|, c.factory)] else [])
    ensures LinksOf(AliasTargets(v + [c])) ==
      LinksOf(AliasTargets(v)) + (if c.isExposedAlias && c.aliasOf != NO_LINK then [Link(|v|, c.aliasOf)] else [])
    ensures OwnPrimaries(v + [c]) == if c.isExposedAlias then OwnPrimaries(v) else OwnPrimaries(v)[|v| := |v|]
  {
    assert (v + [c])[..|v|] == v;
    assert FactoryTargets(v + [c])[..|v|] == FactoryTargets(v);
    assert AliasTargets(v + [c])[..|v|] == AliasTargets(v);
  }

  lemma {:induction false} DeduplicatedAgain(spans: seq<seq<Contribution>>, others: seq<seq<Contribution>>)
    ensures NoCollision(Flatten(spans)) && others == [Firsts(Flatten(spans))] ==>
      NoCollision(Flatten(others)) && Firsts(Flatten(others)) == Firsts(Flatten(spans))
  {
    if NoCollision(Flatten(spans)) && others == [Firsts(Flatten(spans))] {
      var once := Firsts(Flatten(spans));
      MergeIsIdempotent(spans);
      assert [once][..0] == [] && Flatten([]) == [];
      assert Flatten([once]) == [] + once == once;
    }
  }

  // --- The merge -------------------------------------------------------------------------------

  class Merge {
    var descriptors: seq<Contribution>
    var candidates: seq<Candidate>
    var identityMap: map<Identity, DescriptorId>
    var factoryLinks: seq<Link>
    var aliasLinks: seq<Link>
    var primaries: map<DescriptorId, DescriptorId>
    var factories: map<DescriptorId, DescriptorId>

    ghost predicate Valid()
      reads this
    {
      Contributed() && factories == map[]
    }

    /** What the contributions make of the tables, before and after factories are linked. */
    ghost predicate Contributed()
      reads this
    {
      && (forall x :: x in identityMap <==> Find(descriptors, x).Some?)
      && (forall x :: x in identityMap ==> Some(identityMap[x]) == Find(descriptors, x))
      && candidates == CandidatesOf(descriptors)
      && factoryLinks == LinksOf(FactoryTargets(descriptors)) && aliasLinks == LinksOf(AliasTargets(descriptors))
      && primaries == OwnPrimaries(descriptors)
    }

    constructor ()
      ensures Valid() && descriptors == []
    {
      descriptors, candidates, identityMap, factoryLinks, aliasLinks := [], [], map[], [], [];
      primaries, factories := map[], map[];
    }

    /** A new identity is appended and registered; a known one only has to agree with its first occurrence. */
    method Contribute(c: Contribution) returns (ok: bool)
      requires Valid()
      modifies this
      ensures Valid()
      ensures var known := Find(old(descriptors), c.identity);
        && (known.None? ==> ok && descriptors == old(descriptors) + [c])
        && (known.Some? ==> descriptors == old(descriptors))
        && (known.Some? ==> known.value < |descriptors| && (ok <==> Agree(descriptors[known.value], c)))
    {
      FindMeans(descriptors, c.identity);
      if c.identity in identityMap {
        var existing := descriptors[identityMap[c.identity]];
        ok := existing.exposedType == c.exposedType && existing.beanName == c.beanName && existing.lifetime == c.lifetime;
        return;
      }
      Append(c);
      ok := true;
    }

    method Append(c: Contribution)
      requires Valid() && Find(descriptors, c.identity).None?
      modifies this
      ensures Valid() && descriptors == old(descriptors) + [c]
    {
      AppendedTable(descriptors, c);
      NoteLinks(c, |descriptors|);
      identityMap := identityMap[c.identity := |descriptors|];
      candidates := candidates + [Candidate(c.exposedType, c.beanName, |descriptors|)];
      descriptors := descriptors + [c];
    }

    /** A primary is its own descriptor; what an alias or a factory method names is linked later. */
    method NoteLinks(c: Contribution, id: DescriptorId)
      modifies this`primaries, this`aliasLinks, this`factoryLinks
      ensures primaries == if c.isExposedAlias then old(primaries) else old(primaries)[id := id]
      ensures aliasLinks == old(aliasLinks) + (if c.isExposedAlias && c.aliasOf != NO_LINK then [Link(id, c.aliasOf)] else [])
      ensures factoryLinks == old(factoryLinks) + (if c.factory != NO_LINK then [Link(id, c.factory)] else [])
    {
      if !c.isExposedAlias {
        primaries := primaries[id := id];
      } else if c.aliasOf != NO_LINK {
        aliasLinks := aliasLinks + [Link(id, c.aliasOf)];
      }
      if c.factory != NO_LINK {
        factoryLinks := factoryLinks + [Link(id, c.factory)];
      }
    }

    method ContributeNext(c: Contribution, ghost before: seq<Contribution>) returns (ok: bool)
      requires Valid() && descriptors == Firsts(before) && NoCollision(before)
      modifies this
      ensures Valid()
      ensures ok ==> descriptors == Firsts(before + [c])
      ensures ok <==> NoCollision(before + [c])
    {
      FirstsAppend(before, c);
      OneMoreCollides(before, c);
      ok := Contribute(c);
    }

    /** The contributions of one span, in order, until one collides. */
    method ContributeSpan(span: seq<Contribution>, ghost before: seq<Contribution>) returns (ok: bool)
      requires Valid() && descriptors == Firsts(before) && NoCollision(before)
      modifies this
      ensures Valid()
      ensures ok ==> descriptors == Firsts(before + span)
      ensures ok <==> NoCollision(before + span)
    {
      ghost var soFar := before;
      assert before + span[..0] == before;
      for i := 0 to |span|
        invariant Valid() && descriptors == Firsts(soFar) && NoCollision(soFar)
        invariant soFar == before + span[..i]
      {
        SpanPrefix(before, span, i);
        ok := ContributeNext(span[i], soFar);
        soFar := soFar + [span[i]];
        if !ok {
          PrefixCollides(soFar, before + span);
          return;
        }
      }
      assert span[..|span|] == span;
      ok := true;
    }

    method MergeSpans(spans: seq<seq<Contribution>>) returns (r: Outcome)
      requires Valid() && descriptors == []
      modifies this
      ensures r == IdentityCollision <==> !NoCollision(Flatten(spans))
      ensures r == IdentityCollision <==> exists a, b ::
        && InSpans(spans, a) && InSpans(spans, b) && a.identity == b.identity
        && (a.exposedType != b.exposedType || a.beanName != b.beanName || a.lifetime != b.lifetime)
      ensures NoCollision(Flatten(spans)) ==> r == ResultOf(Firsts(Flatten(spans)))
      ensures r.Started? ==>
        var once := Firsts(Flatten(spans));
        && r.merged.descriptors == once && CandidatesRight(once, r.merged.candidates)
        && FactoriesRight(once, r.merged.factories) && PrimariesRight(once, r.merged.primaries)
    {
      CollisionMeans(spans);
      var ok := ContributeAll(spans);
      if !ok {
        return IdentityCollision;
      }
      ResultMeans(descriptors);
      r := LinkDescriptors();
    }

    method ContributeAll(spans: seq<seq<Contribution>>) returns (ok: bool)
      requires Valid() && descriptors == []
      modifies this
      ensures ok <==> NoCollision(Flatten(spans))
      ensures ok ==> Valid() && descriptors == Firsts(Flatten(spans))
    {
      for i := 0 to |spans|
        invariant Valid() && descriptors == Firsts(Flatten(spans[..i])) && NoCollision(Flatten(spans[..i]))
      {
        assert spans[..i + 1][..i] == spans[..i];
        ok := ContributeSpan(spans[i], Flatten(spans[..i]));
        if !ok {
          FlattenPrefix(spans, i + 1);
          PrefixCollides(Flatten(spans[..i + 1]), Flatten(spans));
          return;
        }
      }
      assert spans[..|spans|] == spans;
      ok := true;
    }

    /** Phases 2 and 2.5: identities become descriptor ids. */
    method LinkDescriptors() returns (r: Outcome)
      requires Valid()
      modifies this`primaries, this`factories
      ensures r == ResultOf(descriptors)
    {
      var ok := LinkFactories();
      if !ok {
        return FactoryNotFound;
      }
      ok := LinkAliases();
      r := if ok then Started(Merged(descriptors, candidates, primaries, factories)) else PrimaryNotFound;
    }

    method LinkFactories() returns (ok: bool)
      requires Valid()
      modifies this`factories
      ensures Contributed() && (ok <==> Resolved(descriptors, factoryLinks, map[]).Some?)
      ensures ok ==> Resolved(descriptors, factoryLinks, map[]) == Some(factories)
    {
      for i := 0 to |factoryLinks|
        invariant Resolved(descriptors, factoryLinks[..i], map[]) == Some(factories)
      {
        assert factoryLinks[..i + 1][..i] == factoryLinks[..i];
        if factoryLinks[i].target !in identityMap {
          ResolvedPrefix(descriptors, factoryLinks, i + 1, map[]);
          return false;
        }
        factories := factories[factoryLinks[i].source := identityMap[factoryLinks[i].target]];
      }
      assert factoryLinks[..|factoryLinks|] == factoryLinks;
      ok := true;
    }

    method LinkAliases() returns (ok: bool)
      requires Contributed()
      modifies this`primaries
      ensures ok <==> Resolved(descriptors, aliasLinks, OwnPrimaries(descriptors)).Some?
      ensures ok ==> Resolved(descriptors, aliasLinks, OwnPrimaries(descriptors)) == Some(primaries)
    {
      for i := 0 to |aliasLinks|
        invariant Resolved(descriptors, aliasLinks[..i], OwnPrimaries(descriptors)) == Some(primaries)
      {
        assert aliasLinks[..i + 1][..i] == aliasLinks[..i];
        if aliasLinks[i].target !in identityMap {
          ResolvedPrefix(descriptors, aliasLinks, i + 1, OwnPrimaries(descriptors));
          return false;
        }
        primaries := primaries[aliasLinks[i].source := identityMap[aliasLinks[i].target]];
      }
      assert aliasLinks[..|aliasLinks|] == aliasLinks;
      ok := true;
    }
  }

  lemma {:induction false} NewIdentityCollidesNot(v: seq<Contribution>, c: Contribution)
    requires NoCollision(v) && forall x :: x in v ==> x.identity != c.identity
    ensures NoCollision(v + [c])
  {
  }

  lemma {:induction false} KnownIdentityCollides(v: seq<Contribution>, c: Contribution, first: Contribution)
    requires NoCollision(v) && first in v && first.identity == c.identity
    ensures NoCollision(v + [c]) <==> Agree(first, c)
  {
    assert first in v + [c] && c in v + [c];
    if Agree(first, c) {
      forall a, b | a in v + [c] && b in v + [c] && a.identity == b.identity
        ensures Agree(a, b)
      {
        assert a in v ==> a.identity == c.identity ==> Agree(a, first);
        assert b in v ==> b.identity == c.identity ==> Agree(b, first);
      }
    }
  }

  lemma {:induction false} OneMoreCollides(v: seq<Contribution>, c: Contribution)
    requires NoCollision(v)
    ensures Find(Firsts(v), c.identity).None? ==> NoCollision(v + [c])
    ensures Find(Firsts(v), c.identity).Some? ==>
      var i := Find(Firsts(v), c.identity).value;
      i < |Firsts(v)| && (NoCollision(v + [c]) <==> Agree(Firsts(v)[i], c))
  {
    FirstsMembers(v);
    FindMeans(Firsts(v), c.identity);
    if Find(Firsts(v), c.identity).Some? {
      var first := Firsts(v)[Find(Firsts(v), c.identity).value];
      assert first in Firsts(v);
      KnownIdentityCollides(v, c, first);
    } else {
      NewIdentityCollidesNot(v, c);
    }
  }

  lemma {:induction false} PrefixCollides(v: seq<Contribution>, w: seq<Contribution>)
    requires v <= w && !NoCollision(v)
    ensures !NoCollision(w)
  {
    var a, b :| a in v && b in v && a.identity == b.identity && !Agree(a, b);
    assert a in w && b in w;
  }

  lemma {:induction false} SpanPrefix(before: seq<Contribution>, span: seq<Contribution>, i: nat)
    requires i < |span|
    ensures before + span[..i] + [span[i]] == before + span[..i + 1] <= before + span
  {
  }

  /** A collision named by the contributions and the fields they are compared on. */
  lemma {:induction false} CollisionMeans(spans: seq<seq<Contribution>>)
    ensures !NoCollision(Flatten(spans)) <==> exists a, b ::
      && InSpans(spans, a) && InSpans(spans, b) && a.identity == b.identity
      && (a.exposedType != b.exposedType || a.beanName != b.beanName || a.lifetime != b.lifetime)
  {
    FlattenMembers(spans);
  }

  lemma {:induction false} FlattenMembers(spans: seq<seq<Contribution>>)
    ensures forall c :: c in Flatten(spans) <==> InSpans(spans, c)
  {
    if spans != [] {
      var n := |spans| - 1;
      FlattenMembers(spans[..n]);
      forall c
        ensures InSpans(spans, c) <==> InSpans(spans[..n], c) || c in spans[n]
      {
        if InSpans(spans[..n], c) {
          var i :| 0 <= i < n && c in spans[..n][i];
          assert c in spans[i];
        }
        if InSpans(spans, c) && c !in spans[n] {
          var i :| 0 <= i < |spans| && c in spans[i];
          assert c in spans[..n][i];
        }
      }
    }
  }

  lemma {:induction false} FlattenPrefix(spans: seq<seq<Contribution>>, i: nat)
    requires i <= |spans|
    ensures Flatten(spans[..i]) <= Flatten(spans)
  {
    if i == |spans| {
      assert spans[..i] == spans;
    } else {
      var n := |spans| - 1;
      FlattenPrefix(spans[..n], i);
      assert spans[..n][..i] == spans[..i];
    }
  }

  lemma {:induction false} ResolvedPrefix(
    v: seq<Contribution>, links: seq<Link>, i: nat, m: map<DescriptorId, DescriptorId>)
    requires i <= |links| && Resolved(v, links[..i], m).None?
    ensures Resolved(v, links, m).None?
  {
    if i == |links| {
      assert links[..i] == links;
    } else {
      var n := |links| - 1;
      assert links[..n][..i] == links[..i];
      ResolvedPrefix(v, links[..n], i, m);
    }
  }

  ghost predicate SameFirsts(spans: seq<seq<Contribution>>, others: seq<seq<Contribution>>) {
    && NoCollision(Flatten(spans)) && NoCollision(Flatten(others))
    && Firsts(Flatten(spans)) == Firsts(Flatten(others))
  }

  /** The outcome depends on the first occurrences alone: how often and where else they are repeated does not show. */
  method MergeTwice(spans: seq<seq<Contribution>>, others: seq<seq<Contribution>>) returns (first: Outcome, second: Outcome)
    ensures SameFirsts(spans, others) ==> first == second
    ensures NoCollision(Flatten(spans)) && others == [Firsts(Flatten(spans))] ==> first == second
  {
    DeduplicatedAgain(spans, others);
    var a := new Merge();
    first := a.MergeSpans(spans);
    var b := new Merge();
    second := b.MergeSpans(others);
  }

  // --- Session slots ---------------------------------------------------------------------------

  predicate IsAssigned(slots: seq<Option<nat>>, s: nat) {
    exists k :: 0 <= k < |slots| && slots[k] == Some(s)
  }

  /**
   Phase 4 numbers the session descriptors in table order: a bijection onto
   the first `count` slots, and no slot for any other descriptor.
   */
  method AssignSessionSlots(lifetimes: seq<Lifetime>) returns (slots: seq<Option<nat>>, count: nat)
    ensures |slots| == |lifetimes|
    ensures forall i :: 0 <= i < |slots| ==> (slots[i].Some? <==> lifetimes[i] == Session)
    ensures forall i, j :: 0 <= i < j < |slots| && slots[i].Some? && slots[j].Some? ==> slots[i].value < slots[j].value
    ensures forall i :: 0 <= i < |slots| && slots[i].Some? ==> slots[i].value < count
    ensures forall s: nat :: s < count ==> IsAssigned(slots, s)
  {
    slots, count := [], 0;
    for i := 0 to |lifetimes|
      invariant |slots| == i
      invariant forall k :: 0 <= k < i ==> (slots[k].Some? <==> lifetimes[k] == Session)
      invariant forall k :: 0 <= k < i && slots[k].Some? ==> slots[k].value < count
      invariant forall j, k :: 0 <= j < k < i && slots[j].Some? && slots[k].Some? ==> slots[j].value < slots[k].value
      invariant forall s: nat :: s < count ==> IsAssigned(slots, s)
    {
      ghost var before := slots;
      if lifetimes[i] == Session {
        slots := slots + [Some(count)];
        count := count + 1;
      } else {
        slots := slots + [None];
      }
      forall s: nat | s < count
        ensures IsAssigned(slots, s)
      {
        if IsAssigned(before, s) {
          var k :| 0 <= k < |before| && before[k] == Some(s);
          assert slots[k] == Some(s);
        } else {
          assert slots[i] == Some(s);
        }
      }
    }
  }
}
