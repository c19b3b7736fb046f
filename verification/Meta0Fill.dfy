/**
 The first distribution of the prefixes (`meta0_assign_fill`, meta0v2/meta0_prefixassign.c):
 one pass per replica, each prefix going to the lowest-scored acceptable service.
 */
module Meta0Fill {
  import opened Collections
  import opened Meta0Utils
  import opened Meta0AssignModel
  import opened Meta0Drain
  import opened Meta0Assign
  import opened Meta0Operations

  ghost predicate Blank(t: Slots) {
    forall p :: 0 <= p < |t| ==> t[p] == []
  }

  /** Without a source, a service is acceptable when it brings itself and, unless forced, its host anew. */
  lemma AcceptsNew(urls: seq<Addr>, d: Addr, force: bool)
    ensures Accepts(urls, None, d, force) <==> d !in urls && (force || d.host !in Hosts(urls))
  {
    EmptyOrMember(urls);
    if Accepts(urls, None, d, force) && urls != [] {
      forall u | u in urls ensures u != d && (force || u.host != d.host) {
        assert !Conflicts(u, None, d, force);
      }
    }
  }

  /** One slot of the table after `n` passes over it. */
  ghost predicate FilledSlot(v: seq<Addr>, working: seq<Addr>, n: nat, nodist: bool) {
    && |v| == n && NoDup(v)
    && (forall u :: u in v ==> u in working)
    && (!nodist ==> |Hosts(v)| == n)
  }

  /** The state of the fill after `pass` passes and the first `i` prefixes of the next one. */
  ghost predicate Filled(t: Slots, working: seq<Addr>, pass: nat, i: nat, nodist: bool) {
    && |t| == PREFIXES
    && forall p :: 0 <= p < PREFIXES ==> FilledSlot(t[p], working, if p < i then pass + 1 else pass, nodist)
  }

  ghost predicate Counted(t: Slots, m1: map<Addr, Meta1>) {
    forall a :: a in m1 ==> m1[a].score == |HeldBy(t, a)|
  }

  ghost predicate Level(m1: map<Addr, Meta1>, working: seq<Addr>)
    requires forall a :: a in working ==> a in m1
  {
    forall a, b :: a in working && b in working ==> m1[a].score <= m1[b].score + 1
  }

  function Increase(m1: map<Addr, Meta1>, d: Addr): map<Addr, Meta1>
    requires d in m1
  {
    m1[d := m1[d].(score := m1[d].score + 1)]
  }

  lemma SlotGrowsByOne(v: seq<Addr>, working: seq<Addr>, n: nat, nodist: bool, d: Addr)
    requires FilledSlot(v, working, n, nodist) && d in working && Accepts(v, None, d, nodist)
    ensures FilledSlot(v + [d], working, n + 1, nodist)
  {
    AcceptsNew(v, d, nodist);
    assert Hosts(v + [d]) == Hosts(v) + {d.host} by {
      assert d in v + [d];
      assert forall u :: u in v + [d] <==> u in v || u == d;
    }
  }

  lemma FillOne(t: Slots, working: seq<Addr>, pass: nat, i: nat, nodist: bool, d: Addr)
    requires Filled(t, working, pass, i, nodist) && i < PREFIXES
    requires d in working && Accepts(t[i], None, d, nodist)
    ensures Filled(t[i := t[i] + [d]], working, pass, i + 1, nodist)
  {
    SlotGrowsByOne(t[i], working, pass, nodist, d);
  }

  lemma HeldAfterAdd(t: Slots, i: nat, d: Addr, a: Addr)
    requires i < |t| && d !in t[i]
    ensures HeldBy(t[i := t[i] + [d]], a) == if a == d then HeldBy(t, a) + {i} else HeldBy(t, a)
    ensures i !in HeldBy(t, d)
  {
  }

  lemma CountOne(t: Slots, m1: map<Addr, Meta1>, i: nat, d: Addr)
    requires Counted(t, m1) && i < |t| && d in m1 && d !in t[i]
    ensures Counted(t[i := t[i] + [d]], Increase(m1, d))
  {
    forall a | a in Increase(m1, d) ensures Increase(m1, d)[a].score == |HeldBy(t[i := t[i] + [d]], a)| {
      HeldAfterAdd(t, i, d, a);
    }
  }

  /** Counting services: some acceptable one is left as long as the pass number is below the supply. */
  lemma SomeoneFits(v: seq<Addr>, working: seq<Addr>, n: nat, nodist: bool)
    requires FilledSlot(v, working, n, nodist) && NoDup(working)
    requires n < Supply(working, nodist)
    ensures exists d :: d in working && Accepts(v, None, d, nodist)
  {
    if nodist {
      MembersSize(v);
      MembersSize(working);
      if Members(working) <= Members(v) {
        SubsetSize(Members(working), Members(v));
      }
      var d :| d in Members(working) && d !in Members(v);
      AcceptsNew(v, d, nodist);
    } else {
      if Hosts(working) <= Hosts(v) {
        SubsetSize(Hosts(working), Hosts(v));
      }
      var h :| h in Hosts(working) && h !in Hosts(v);
      var d :| d in working && d.host == h;
      assert d !in v;
      AcceptsNew(v, d, nodist);
    }
  }

  /** How many replicas of one prefix the services can carry: services, or hosts where hosts must differ. */
  ghost function Supply(working: seq<Addr>, nodist: bool): nat {
    if nodist then |working| else |Hosts(working)|
  }

  lemma SlotWithinSupply(v: seq<Addr>, working: seq<Addr>, n: nat, nodist: bool)
    requires FilledSlot(v, working, n, nodist) && NoDup(working)
    ensures n <= Supply(working, nodist)
  {
    if nodist {
      MembersSize(v);
      MembersSize(working);
      SubsetSize(Members(v), Members(working));
    } else {
      assert Hosts(v) <= Hosts(working);
      SubsetSize(Hosts(v), Hosts(working));
    }
  }

  /** Raising the lowest score keeps the scores level. */
  lemma LevelOne(m1: map<Addr, Meta1>, working: seq<Addr>, d: Addr)
    requires (forall a :: a in working ==> a in m1) && Level(m1, working) && d in working
    requires forall a :: a in working ==> m1[d].score <= m1[a].score
    ensures Level(Increase(m1, d), working)
  {
  }

  ghost predicate SameUse(m1: map<Addr, Meta1>, m1': map<Addr, Meta1>) {
    m1'.Keys == m1.Keys && forall a :: a in m1 ==> m1'[a].used == m1[a].used
  }

  // ----- every place goes to a least loaded service

  ghost function Upto(v: seq<Addr>, n: nat): seq<Addr> {
    if n <= |v| then v[..n] else v
  }

  /** The table as it was when the `k`-th pass came to prefix `i`. */
  ghost function Before(t: Slots, k: nat, i: nat): Slots {
    seq(|t|, p requires 0 <= p < |t| => Upto(t[p], if p < i then k + 1 else k))
  }

  /** A service may join a vector: it is not in it, nor is its host where hosts must differ. */
  ghost predicate Eligible(v: seq<Addr>, a: Addr, nodist: bool) {
    a !in v && (nodist || a.host !in Hosts(v))
  }

  /** The `k`-th service of prefix `i` was, when chosen, one with the fewest prefixes among those that could join. */
  ghost predicate LeastLoaded(t: Slots, services: set<Addr>, k: nat, i: nat, nodist: bool) {
    && i < |t| && k < |t[i]| && t[i][k] in services && Eligible(t[i][..k], t[i][k], nodist)
    && forall a :: a in services && Eligible(t[i][..k], a, nodist) ==>
      |HeldBy(Before(t, k, i), t[i][k])| <= |HeldBy(Before(t, k, i), a)|
  }

  ghost predicate Greedy(t: Slots, services: set<Addr>, pass: nat, i: nat, nodist: bool) {
    forall k: nat, j: nat :: j < |t| && (k < pass || (k == pass && j < i)) ==> LeastLoaded(t, services, k, j, nodist)
  }

  /** A place added does not change what came before it. */
  lemma BeforeKept(t: Slots, working: seq<Addr>, pass: nat, i: nat, nodist: bool, d: Addr, k: nat, j: nat)
    requires Filled(t, working, pass, i, nodist) && i < PREFIXES && j < PREFIXES
    requires k < pass || (k == pass && j < i)
    ensures Before(t[i := t[i] + [d]], k, j) == Before(t, k, j)
  {
    assert FilledSlot(t[i], working, pass, nodist);
    forall p | 0 <= p < |t| ensures Before(t[i := t[i] + [d]], k, j)[p] == Before(t, k, j)[p] {
    }
  }

  lemma BeforeNow(t: Slots, working: seq<Addr>, pass: nat, i: nat, nodist: bool, d: Addr)
    requires Filled(t, working, pass, i, nodist) && i < PREFIXES
    ensures Before(t[i := t[i] + [d]], pass, i) == t
  {
    forall p | 0 <= p < |t| ensures Before(t[i := t[i] + [d]], pass, i)[p] == t[p] {
      assert FilledSlot(t[p], working, if p < i then pass + 1 else pass, nodist);
    }
  }

  lemma EarlierKept(t: Slots, working: seq<Addr>, pass: nat, i: nat, nodist: bool, d: Addr, k: nat, j: nat)
    requires Filled(t, working, pass, i, nodist) && i < PREFIXES && j < PREFIXES
    requires k < pass || (k == pass && j < i)
    requires LeastLoaded(t, Members(working), k, j, nodist)
    ensures LeastLoaded(t[i := t[i] + [d]], Members(working), k, j, nodist)
  {
    BeforeKept(t, working, pass, i, nodist, d, k, j);
    assert (t[i] + [d])[..|t[i]|] == t[i];
    assert t[i := t[i] + [d]][j][..k] == t[j][..k];
  }

  lemma GreedyOne(t: Slots, m1: map<Addr, Meta1>, working: seq<Addr>, pass: nat, i: nat, nodist: bool, d: Addr)
    requires Filled(t, working, pass, i, nodist) && Greedy(t, Members(working), pass, i, nodist) && i < PREFIXES
    requires Counted(t, m1) && (forall a :: a in working ==> a in m1)
    requires d in working && Accepts(t[i], None, d, nodist)
    requires forall a :: a in working && Accepts(t[i], None, a, nodist) ==> m1[d].score <= m1[a].score
    ensures Greedy(t[i := t[i] + [d]], Members(working), pass, i + 1, nodist)
  {
    var t' := t[i := t[i] + [d]];
    forall k: nat, j: nat | j < |t'| && (k < pass || (k == pass && j < i + 1))
      ensures LeastLoaded(t', Members(working), k, j, nodist)
    {
      if k == pass && j == i {
        LastIsLeast(t, m1, working, pass, i, nodist, d);
      } else {
        EarlierKept(t, working, pass, i, nodist, d, k, j);
      }
    }
  }

  lemma LastIsLeast(t: Slots, m1: map<Addr, Meta1>, working: seq<Addr>, pass: nat, i: nat, nodist: bool, d: Addr)
    requires Filled(t, working, pass, i, nodist) && i < PREFIXES
    requires Counted(t, m1) && (forall a :: a in working ==> a in m1)
    requires d in working && Accepts(t[i], None, d, nodist)
    requires forall a :: a in working && Accepts(t[i], None, a, nodist) ==> m1[d].score <= m1[a].score
    ensures LeastLoaded(t[i := t[i] + [d]], Members(working), pass, i, nodist)
  {
    BeforeNow(t, working, pass, i, nodist, d);
    assert FilledSlot(t[i], working, pass, nodist);
    assert (t[i] + [d])[..pass] == t[i];
    AcceptsNew(t[i], d, nodist);
    forall a | a in Members(working) && Eligible(t[i], a, nodist) ensures |HeldBy(t, d)| <= |HeldBy(t, a)| {
      AcceptsNew(t[i], a, nodist);
    }
  }

  /** The state of the fill: slots, scores that count them and, during the first pass, level scores. */
  ghost predicate Filling(t: Slots, m1: map<Addr, Meta1>, working: seq<Addr>, pass: nat, i: nat, nodist: bool) {
    && Filled(t, working, pass, i, nodist) && Counted(t, m1) && (forall a :: a in working ==> a in m1)
    && Greedy(t, Members(working), pass, i, nodist)
    && (pass == 0 ==> Level(m1, working))
  }

  lemma FillStep(t: Slots, m1: map<Addr, Meta1>, working: seq<Addr>, pass: nat, i: nat, nodist: bool, d: Addr)
    requires Filling(t, m1, working, pass, i, nodist) && i < PREFIXES
    requires d in working && Accepts(t[i], None, d, nodist)
    requires forall a :: a in working && Accepts(t[i], None, a, nodist) ==> m1[d].score <= m1[a].score
    ensures d in m1 && Filling(t[i := t[i] + [d]], Increase(m1, d), working, pass, i + 1, nodist)
  {
    AcceptsNew(t[i], d, nodist);
    FillOne(t, working, pass, i, nodist, d);
    CountOne(t, m1, i, d);
    GreedyOne(t, m1, working, pass, i, nodist, d);
    if pass == 0 {
      assert t[i] == [];
      LevelOne(m1, working, d);
    }
  }

  lemma NextPass(t: Slots, m1: map<Addr, Meta1>, working: seq<Addr>, pass: nat, nodist: bool)
    requires Filling(t, m1, working, pass, PREFIXES, nodist)
    ensures Filling(t, m1, working, pass + 1, 0, nodist)
  {
  }

  lemma UseKept(m0: map<Addr, Meta1>, m1: map<Addr, Meta1>, d: Addr)
    requires SameUse(m0, m1) && d in m1
    ensures SameUse(m0, Increase(m1, d))
  {
  }

  /** The inner loop: every prefix gets one more service. */
  method FillPass(allocator: Allocator, working: seq<Addr>, nodist: bool, ghost blank: bool, ghost pass: nat)
    returns (ok: bool)
    requires |allocator.byPrefix.slots| == PREFIXES
    requires NoDup(working) && forall a :: a in working ==> a in allocator.m1
    requires blank ==> Filling(allocator.byPrefix.slots, allocator.m1, working, pass, 0, nodist)
    modifies allocator`m1, allocator.byPrefix
    ensures |allocator.byPrefix.slots| == PREFIXES && SameUse(old(allocator.m1), allocator.m1)
    ensures ok && blank ==> Filling(allocator.byPrefix.slots, allocator.m1, working, pass, PREFIXES, nodist)
    ensures ok ==> Sum(working, allocator.m1, Score) == Sum(working, old(allocator.m1), Score) + PREFIXES
    ensures blank && pass < Supply(working, nodist) ==> ok
  {
    ghost var m0 := allocator.m1;
    var lst := working;
    for idx := 0 to PREFIXES
      invariant |allocator.byPrefix.slots| == PREFIXES && SameUse(m0, allocator.m1)
      invariant forall a :: a in lst <==> a in working
      invariant blank ==> Filling(allocator.byPrefix.slots, allocator.m1, working, pass, idx, nodist)
      invariant Sum(working, allocator.m1, Score) == Sum(working, m0, Score) + idx
    {
      ghost var t, m1 := allocator.byPrefix.slots, allocator.m1;
      lst := SortByScore(lst, allocator.m1);
      var dest := allocator.SelectDest(lst, None, idx, true, nodist);
      if dest.None? {
        if blank && pass < Supply(working, nodist) {
          SomeoneFits(t[idx], working, pass, nodist);
        }
        return false;
      }
      var d := dest.value;
      allocator.byPrefix.Add(idx, d);
      allocator.m1 := Increase(allocator.m1, d);
      UseKept(m0, m1, d);
      SumShift(working, m1, allocator.m1, Score, d);
      if blank {
        FillStep(t, m1, working, pass, idx, nodist, d);
      }
    }
    ok := true;
  }

  /** What a successful fill stores. */
  ghost predicate FilledTable(listed: seq<Addr>, refs: map<Addr, bool>, replicas: nat, nodist: bool, out: Stored) {
    && |out.slots| == PREFIXES
    && (forall p :: 0 <= p < PREFIXES ==> FilledFor(out.slots[p], listed, refs, replicas, nodist))
    && (forall a :: a in out.meta1s <==> a in listed)
    && (forall a :: a in out.meta1s ==> out.meta1s[a] == Reference(InUse(refs, a), |HeldBy(out.slots, a)|))
    && (forall k: nat, p: nat :: k < replicas && p < PREFIXES ==>
      LeastLoaded(out.slots, Working(listed, refs), k, p, nodist))
    && (replicas == 1 ==> forall a, b :: a in listed && b in listed && InUse(refs, a) && InUse(refs, b) ==>
      |HeldBy(out.slots, a)| <= |HeldBy(out.slots, b)| + 1)
  }

  /** A prefix has exactly its replicas: distinct services in use, on distinct hosts unless told otherwise. */
  ghost predicate FilledFor(v: seq<Addr>, listed: seq<Addr>, refs: map<Addr, bool>, replicas: nat, nodist: bool) {
    && |v| == replicas && NoDup(v)
    && (forall u :: u in v ==> u in listed && InUse(refs, u))
    && (!nodist ==> |Hosts(v)| == replicas)
  }

  /** The services in use, or their hosts where hosts must differ. */
  ghost function SupplyOf(listed: seq<Addr>, refs: map<Addr, bool>, nodist: bool): nat {
    if nodist then |Working(listed, refs)| else |HostsOf(Working(listed, refs))|
  }

  ghost function HostsOf(services: set<Addr>): set<string> {
    set u | u in services :: u.host
  }

  lemma SupplyOfPlan(listed: seq<Addr>, refs: map<Addr, bool>, working: seq<Addr>, nodist: bool)
    requires NoDup(working) && forall a :: a in working <==> a in listed && InUse(refs, a)
    ensures Supply(working, nodist) == SupplyOf(listed, refs, nodist)
  {
    MembersSize(working);
    assert Members(working) == Working(listed, refs);
    assert Hosts(working) == HostsOf(Working(listed, refs));
  }

  lemma BlankScores(t: Slots, refs: map<Addr, bool>, listed: seq<Addr>, replica: nat, plan: Plan)
    requires Blank(t) && Planned(t, refs, listed, replica, plan)
    ensures forall a :: a in plan.m1 ==> plan.m1[a].score == 0
    ensures forall a :: a in plan.working ==> a in plan.m1
  {
    forall a | a in plan.m1 ensures plan.m1[a].score == 0 {
      assert Fresh(t, refs, a, plan.m1[a]);
      assert HeldBy(t, a) == {};
      ElementsSize(plan.m1[a].pending);
    }
  }

  lemma BlankStart(t: Slots, m1: map<Addr, Meta1>, working: seq<Addr>, nodist: bool)
    requires |t| == PREFIXES && Blank(t)
    requires (forall a :: a in m1 ==> m1[a].score == 0) && forall a :: a in working ==> a in m1
    ensures Filling(t, m1, working, 0, 0, nodist) && Sum(working, m1, Score) == 0
  {
  }

  lemma FilledStored(t: Slots, refs: map<Addr, bool>, listed: seq<Addr>, replica: nat, plan: Plan,
                     t': Slots, m1: map<Addr, Meta1>, passes: nat, nodist: bool)
    requires Planned(t, refs, listed, replica, plan) && SameUse(plan.m1, m1)
    requires Filling(t', m1, plan.working, passes, 0, nodist)
    requires passes == 1 ==> Level(m1, plan.working)
    ensures FilledTable(listed, refs, passes, nodist, StoredState(State(t', m1, {})))
  {
    forall a | a in m1 ensures m1[a].used == InUse(refs, a) {
      assert Fresh(t, refs, a, plan.m1[a]);
    }
    assert Members(plan.working) == Working(listed, refs);
    forall p | 0 <= p < PREFIXES ensures FilledFor(t'[p], listed, refs, passes, nodist) {
      assert FilledSlot(t'[p], plan.working, passes, nodist);
    }
  }

  /** The outer loop: one pass per replica. */
  method FillPasses(allocator: Allocator, working: seq<Addr>, replicas: nat, nodist: bool, ghost blank: bool)
    returns (ok: bool)
    requires |allocator.byPrefix.slots| == PREFIXES
    requires NoDup(working) && forall a :: a in working ==> a in allocator.m1
    requires blank ==> Filling(allocator.byPrefix.slots, allocator.m1, working, 0, 0, nodist)
    modifies allocator`m1, allocator.byPrefix
    ensures |allocator.byPrefix.slots| == PREFIXES && SameUse(old(allocator.m1), allocator.m1)
    ensures ok && blank ==> Filling(allocator.byPrefix.slots, allocator.m1, working, replicas, 0, nodist)
    ensures ok && blank && replicas <= 1 ==>
      (forall a :: a in working ==> a in allocator.m1) && Level(allocator.m1, working)
    ensures ok ==>
      Sum(working, allocator.m1, Score) == Sum(working, old(allocator.m1), Score) + PREFIXES * replicas
    ensures blank && replicas <= Supply(working, nodist) ==> ok
  {
    ghost var m0 := allocator.m1;
    var left := replicas;
    while left > 0
      invariant 0 <= left <= replicas
      invariant |allocator.byPrefix.slots| == PREFIXES && SameUse(m0, allocator.m1)
      invariant blank ==> Filling(allocator.byPrefix.slots, allocator.m1, working, replicas - left, 0, nodist)
      invariant blank && replicas - left <= 1 ==> Level(allocator.m1, working)
      invariant Sum(working, allocator.m1, Score) == Sum(working, m0, Score) + PREFIXES * (replicas - left)
    {
      ok := FillPass(allocator, working, nodist, blank, replicas - left);
      if !ok {
        return;
      }
      if blank {
        NextPass(allocator.byPrefix.slots, allocator.m1, working, replicas - left, nodist);
      }
      left := left - 1;
    }
    ok := true;
  }

  /** `meta0_assign_fill`; storing into a table that already has rows violates its key. */
  method Fill(slots: Slots, listed: seq<Addr>, refs: map<Addr, bool>, replicas: nat, nodist: bool)
    returns (r: Result<Stored>)
    requires |slots| == PREFIXES && DistinctSlots(slots) && NoDup(listed)
    ensures r.Success? ==> FilledTable(listed, refs, replicas, nodist, r.value)
    ensures r.Success? <==> Blank(slots) && 1 <= replicas <= |listed| && replicas <= SupplyOf(listed, refs, nodist)
  {
    var table := new PrefixTable();
    table.slots := slots;
    var init := InitAssign(table, listed, refs, replicas);
    if init.Failure? {
      NoSupply(listed, refs, nodist);
      return Failure(init.error);
    }
    var plan := init.value;
    var allocator := new Allocator(table, plan.avg, plan.m1);
    ghost var blank := Blank(slots);
    if blank {
      BlankScores(slots, refs, listed, replicas, plan);
      BlankStart(slots, plan.m1, plan.working, nodist);
    }
    SupplyOfPlan(listed, refs, plan.working, nodist);
    var ok := FillPasses(allocator, plan.working, replicas, nodist, blank);
    if !ok {
      return Failure(if plan.working == [] then Died else Unplaceable);
    }
    if exists p :: 0 <= p < PREFIXES && slots[p] != [] {
      return Failure(Database);
    }
    assert Filling(table.slots, allocator.m1, plan.working, replicas, 0, nodist);
    FilledStored(slots, refs, listed, replicas, plan, table.slots, allocator.m1, replicas, nodist);
    assert FilledSlot(table.slots[0], plan.working, replicas, nodist);
    SlotWithinSupply(table.slots[0], plan.working, replicas, nodist);
    return Success(StoredState(State(table.slots, allocator.m1, {})));
  }

  lemma NoSupply(listed: seq<Addr>, refs: map<Addr, bool>, nodist: bool)
    ensures (forall a :: a in listed ==> !InUse(refs, a)) ==> SupplyOf(listed, refs, nodist) == 0
  {
  }
}
