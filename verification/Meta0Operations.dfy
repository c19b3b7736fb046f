/**
 The operations of the META0 allocator on the stored table (meta0v2/meta0_prefixassign.c):
 preparation of a run, disabling of services, reassignment.
 */
module Meta0Operations {
  import opened Collections
  import opened Meta0Utils
  import opened Meta0AssignModel
  import opened Meta0Drain
  import opened Meta0Rebalance
  import opened Meta0Moves
  import opened Meta0Assign

  /** `Died` stands for the end of the process, on an empty list of candidates. */
  datatype Error = SharedPrefix | TooFewServices | InvalidReplica | NoService | Unplaceable | Database | Died

  datatype Result<+T> = Success(value: T) | Failure(error: Error)

  /** What `_init_assign` prepares. */
  datatype Plan = Plan(m1: map<Addr, Meta1>, working: seq<Addr>, unref: seq<Addr>, avg: int)

  /** A service is in use unless its stored reference says otherwise. */
  predicate InUse(refs: map<Addr, bool>, a: Addr) {
    a in refs ==> refs[a]
  }

  /** The services named anywhere in the table. */
  ghost function Holders(t: Slots): set<Addr> {
    if t == [] then {} else Members(t[0]) + Holders(t[1..])
  }

  lemma {:induction false} HoldersHold(t: Slots, a: Addr)
    ensures a in Holders(t) <==> exists p :: 0 <= p < |t| && a in t[p]
  {
    if t == [] {
    } else {
      HoldersHold(t[1..], a);
      assert forall p :: 0 < p < |t| ==> t[p] == t[1..][p - 1];
    }
  }

  /** `(65536 * replica) / services`, in 32-bit arithmetic. */
  function AverageScore(replica: nat, services: nat): nat
    requires services > 0
  {
    (PREFIXES * replica) % 0x1_0000_0000 / services
  }

  /**
   Giving the average to every service uses no more than the places to fill, and one more to each would use too
   many; past 32 bits it is the wrapped product that is shared out.
   */
  ghost predicate FairShare(replica: nat, services: nat, avg: int) {
    && avg * services <= (65536 * replica) % 0x1_0000_0000 < (avg + 1) * services
    && (65536 * replica < 0x1_0000_0000 ==> avg * services <= 65536 * replica < (avg + 1) * services)
  }

  lemma AverageBounds(replica: nat, services: nat)
    requires services > 0
    ensures FairShare(replica, services, AverageScore(replica, services))
  {
    var product := (65536 * replica) % 0x1_0000_0000;
    Quotient(product, services);
  }

  lemma Quotient(x: nat, n: nat)
    requires n > 0
    ensures (x / n) * n <= x < (x / n + 1) * n
  {
    assert x == (x / n) * n + x % n;
    assert (x / n + 1) * n == (x / n) * n + n;
  }

  /** How many services share the prefixes: the working ones and those serving without being listed. */
  ghost function ServiceCount(t: Slots, listed: seq<Addr>, refs: map<Addr, bool>): nat {
    |Working(listed, refs)| + |Holders(t) - Members(listed)|
  }

  ghost function Working(listed: seq<Addr>, refs: map<Addr, bool>): set<Addr> {
    set a | a in listed && InUse(refs, a)
  }

  /** The count is the size of one set: a listed service counts unless disabled, an unlisted one while it serves. */
  lemma ServiceCountMeans(t: Slots, listed: seq<Addr>, refs: map<Addr, bool>, sharing: set<Addr>)
    requires forall a :: a in sharing <==>
      if a in listed then a !in refs || refs[a] else exists p :: 0 <= p < |t| && a in t[p]
    ensures ServiceCount(t, listed, refs) == |sharing|
  {
    var serving := Holders(t) - Members(listed);
    forall a ensures a in sharing <==> a in Working(listed, refs) + serving {
      HoldersHold(t, a);
    }
    assert sharing == Working(listed, refs) + serving;
    assert Working(listed, refs) !! serving;
  }

  /** The record of one service, before the average is known. */
  ghost predicate Fresh(t: Slots, refs: map<Addr, bool>, a: Addr, m: Meta1) {
    && m.score == |m.pending| && NoDup(m.pending) && Elements(m.pending) == HeldBy(t, a)
    && m.used == InUse(refs, a)
  }

  ghost predicate Planned(t: Slots, refs: map<Addr, bool>, listed: seq<Addr>, replica: nat, plan: Plan) {
    && Split(t, refs, Members(listed), plan.m1, plan.working, plan.unref)
    && (forall a :: a in plan.m1 ==>
      (plan.m1[a].available <==> a in plan.working && plan.m1[a].score > plan.avg))
    && ServiceCount(t, listed, refs) > 0
    && plan.avg == AverageScore(replica, ServiceCount(t, listed, refs))
  }

  lemma TreeIsHolders(t: Slots, tree: map<Addr, seq<nat>>)
    requires TreeOf(t, tree) && DistinctSlots(t)
    ensures tree.Keys == Holders(t)
  {
    forall a ensures a in tree <==> a in Holders(t) {
      TreeEntryIsHeld(t, tree, a);
      HoldersHold(t, a);
      assert forall p: nat :: p in HeldBy(t, a) <==> p < |t| && a in t[p];
    }
  }

  /** The services `done` have their record and their place in one of the two lists. */
  ghost predicate Split(t: Slots, refs: map<Addr, bool>, done: set<Addr>,
                        m1: map<Addr, Meta1>, working: seq<Addr>, unref: seq<Addr>)
  {
    && m1.Keys == done
    && (forall a :: a in m1 ==> Fresh(t, refs, a, m1[a]))
    && NoDup(working) && (forall a :: a in working <==> a in done && InUse(refs, a))
    && NoDup(unref) && (forall a :: a in unref <==> a in m1 && !InUse(refs, a) && m1[a].pending != [])
  }

  /** The working services, the last listed first. */
  ghost function WorkingList(listed: seq<Addr>, refs: map<Addr, bool>): seq<Addr> {
    if listed == [] then []
    else
      var head, last := listed[..|listed| - 1], listed[|listed| - 1];
      (if InUse(refs, last) then [last] else []) + WorkingList(head, refs)
  }

  /** The services to drain, the last listed first. */
  ghost function UnrefList(t: Slots, listed: seq<Addr>, refs: map<Addr, bool>): seq<Addr> {
    if listed == [] then []
    else
      var head, last := listed[..|listed| - 1], listed[|listed| - 1];
      (if !InUse(refs, last) && HeldBy(t, last) != {} then [last] else []) + UnrefList(t, head, refs)
  }

  lemma LastListed(t: Slots, refs: map<Addr, bool>, head: seq<Addr>, last: Addr)
    ensures WorkingList(head + [last], refs) == (if InUse(refs, last) then [last] else []) + WorkingList(head, refs)
    ensures UnrefList(t, head + [last], refs) ==
            (if !InUse(refs, last) && HeldBy(t, last) != {} then [last] else []) + UnrefList(t, head, refs)
  {
    assert (head + [last])[..|head + [last]| - 1] == head;
  }

  /** The working services come in the reverse of the order of the conscience. */
  lemma {:induction false} WorkingReversed(refs: map<Addr, bool>, front: seq<Addr>, back: seq<Addr>)
    ensures WorkingList(front + back, refs) == WorkingList(back, refs) + WorkingList(front, refs)
    decreases |back|
  {
    if back == [] {
      assert front + back == front;
    } else {
      var head, last := back[..|back| - 1], back[|back| - 1];
      var one := if InUse(refs, last) then [last] else [];
      WorkingReversed(refs, front, head);
      assert WorkingList(front + back, refs) == one + WorkingList(front + head, refs) by {
        LastListed([], refs, front + head, last);
        assert front + back == (front + head) + [last];
      }
      Associative(one, WorkingList(head, refs), WorkingList(front, refs));
    }
  }

  /** So do the services to drain. */
  lemma {:induction false} UnrefReversed(t: Slots, refs: map<Addr, bool>, front: seq<Addr>, back: seq<Addr>)
    ensures UnrefList(t, front + back, refs) == UnrefList(t, back, refs) + UnrefList(t, front, refs)
    decreases |back|
  {
    if back == [] {
      assert front + back == front;
    } else {
      var head, last := back[..|back| - 1], back[|back| - 1];
      var one := if !InUse(refs, last) && HeldBy(t, last) != {} then [last] else [];
      UnrefReversed(t, refs, front, head);
      assert UnrefList(t, front + back, refs) == one + UnrefList(t, front + head, refs) by {
        LastListed(t, refs, front + head, last);
        assert front + back == (front + head) + [last];
      }
      Associative(one, UnrefList(t, head, refs), UnrefList(t, front, refs));
    }
  }

  lemma Associative<T>(x: seq<T>, y: seq<T>, z: seq<T>)
    ensures x + (y + z) == (x + y) + z
  {
  }

  /** The order of the prefixes of each service and of the two lists. */
  ghost predicate InOrder(t: Slots, refs: map<Addr, bool>, listed: seq<Addr>,
                          m1: map<Addr, Meta1>, working: seq<Addr>, unref: seq<Addr>)
  {
    && (forall a :: a in m1 ==> Rising(m1[a].pending))
    && working == WorkingList(listed, refs) && unref == UnrefList(t, listed, refs)
  }

  lemma OrderNext(t: Slots, refs: map<Addr, bool>, list: seq<Addr>, m1: map<Addr, Meta1>,
                  working: seq<Addr>, unref: seq<Addr>, a: Addr, pending: seq<nat>)
    requires InOrder(t, refs, list, m1, working, unref) && Rising(pending) && Elements(pending) == HeldBy(t, a)
    ensures InOrder(t, refs, list + [a], m1[a := Meta1(|pending|, false, InUse(refs, a), pending)],
                    if InUse(refs, a) then [a] + working else working,
                    if !InUse(refs, a) && pending != [] then [a] + unref else unref)
  {
    assert (list + [a])[..|list|] == list;
    EmptyOrMember(pending);
    assert forall p :: p in pending ==> p in Elements(pending);
  }

  lemma {:induction false} RisingUnique(s: seq<nat>, s': seq<nat>)
    requires NoDup(s) && NoDup(s') && Rising(s) && Rising(s') && Elements(s) == Elements(s')
    ensures s == s'
  {
    ElementsSize(s);
    ElementsSize(s');
    if s == [] {
    } else {
      assert s[0] in Elements(s') && s'[0] in Elements(s);
      assert s[0] == s'[0];
      TailOfNoDup(s);
      TailOfNoDup(s');
      assert Elements(s[1..]) == Elements(s) - {s[0]};
      assert Elements(s'[1..]) == Elements(s') - {s'[0]};
      RisingUnique(s[1..], s'[1..]);
      assert s == [s[0]] + s[1..];
    }
  }

  /** The plan is determined by the table, the conscience and the references. */
  lemma PlanUnique(t: Slots, refs: map<Addr, bool>, listed: seq<Addr>, replica: nat, plan: Plan, plan': Plan)
    requires Planned(t, refs, listed, replica, plan) && InOrder(t, refs, listed, plan.m1, plan.working, plan.unref)
    requires Planned(t, refs, listed, replica, plan') && InOrder(t, refs, listed, plan'.m1, plan'.working, plan'.unref)
    ensures plan == plan'
  {
    forall a | a in plan.m1 ensures plan.m1[a] == plan'.m1[a] {
      assert Fresh(t, refs, a, plan.m1[a]) && Fresh(t, refs, a, plan'.m1[a]);
      RisingUnique(plan.m1[a].pending, plan'.m1[a].pending);
    }
  }

  /** The loop of `_init_assign` over the listed services; `rest` keeps the entries of the others. */
  method SplitServices(table: PrefixTable, listed: seq<Addr>, refs: map<Addr, bool>)
    returns (m1: map<Addr, Meta1>, working: seq<Addr>, unref: seq<Addr>, rest: map<Addr, seq<nat>>)
    requires DistinctSlots(table.slots) && NoDup(listed)
    ensures Split(table.slots, refs, Members(listed), m1, working, unref)
    ensures rest.Keys == Holders(table.slots) - Members(listed)
    ensures InOrder(table.slots, refs, listed, m1, working, unref)
  {
    ghost var t := table.slots;
    rest := table.ToTree();
    ghost var tree := rest;
    TreeIsHolders(t, tree);
    m1, working, unref := map[], [], [];
    for i := 0 to |listed|
      invariant Split(t, refs, Members(listed[..i]), m1, working, unref)
      invariant InOrder(t, refs, listed[..i], m1, working, unref)
      invariant rest.Keys == tree.Keys - Members(listed[..i]) && forall a :: a in rest ==> rest[a] == tree[a]
    {
      var a := listed[i];
      TreeEntryIsHeld(t, tree, a);
      MembersNext(listed, i);
      var pending := if a in rest then rest[a] else [];
      assert NoDup(pending) && Elements(pending) == HeldBy(t, a) && Rising(pending);
      SplitNext(t, refs, listed, i, m1, working, unref, pending);
      m1 := m1[a := Meta1(|pending|, false, InUse(refs, a), pending)];
      if !InUse(refs, a) {
        if |pending| != 0 {
          unref := [a] + unref;
        }
      } else {
        working := [a] + working;
      }
      rest := rest - {a};
    }
    assert listed[..|listed|] == listed;
  }

  lemma MembersNext(listed: seq<Addr>, i: nat)
    requires i < |listed| && NoDup(listed)
    ensures listed[i] !in Members(listed[..i]) && Members(listed[..i + 1]) == Members(listed[..i]) + {listed[i]}
  {
    NotEarlier(listed, i);
    assert listed[..i + 1] == listed[..i] + [listed[i]];
  }

  lemma SplitNext(t: Slots, refs: map<Addr, bool>, listed: seq<Addr>, i: nat, m1: map<Addr, Meta1>,
                  working: seq<Addr>, unref: seq<Addr>, pending: seq<nat>)
    requires i < |listed| && NoDup(listed)
    requires Split(t, refs, Members(listed[..i]), m1, working, unref)
    requires InOrder(t, refs, listed[..i], m1, working, unref)
    requires NoDup(pending) && Rising(pending) && Elements(pending) == HeldBy(t, listed[i])
    ensures
      var a := listed[i];
      var m1' := m1[a := Meta1(|pending|, false, InUse(refs, a), pending)];
      var working' := if InUse(refs, a) then [a] + working else working;
      var unref' := if !InUse(refs, a) && pending != [] then [a] + unref else unref;
      && Split(t, refs, Members(listed[..i + 1]), m1', working', unref')
      && InOrder(t, refs, listed[..i + 1], m1', working', unref')
  {
    MembersNext(listed, i);
    assert listed[..i + 1] == listed[..i] + [listed[i]];
    SplitOne(t, refs, Members(listed[..i]), m1, working, unref, listed[i], pending);
    OrderNext(t, refs, listed[..i], m1, working, unref, listed[i], pending);
  }

  lemma SplitOne(t: Slots, refs: map<Addr, bool>, done: set<Addr>, m1: map<Addr, Meta1>,
                 working: seq<Addr>, unref: seq<Addr>, a: Addr, pending: seq<nat>)
    requires Split(t, refs, done, m1, working, unref) && a !in done
    requires NoDup(pending) && Elements(pending) == HeldBy(t, a)
    ensures Split(t, refs, done + {a}, m1[a := Meta1(|pending|, false, InUse(refs, a), pending)],
                  if InUse(refs, a) then [a] + working else working,
                  if !InUse(refs, a) && pending != [] then [a] + unref else unref)
  {
  }

  /** `_init_assign`: splits the listed services into working and disabled ones and fixes the average. */
  method InitAssign(table: PrefixTable, listed: seq<Addr>, refs: map<Addr, bool>, replica: nat)
    returns (r: Result<Plan>)
    requires DistinctSlots(table.slots) && NoDup(listed)
    ensures r.Success? ==>
      && Planned(table.slots, refs, listed, replica, r.value)
      && InOrder(table.slots, refs, listed, r.value.m1, r.value.working, r.value.unref)
    ensures r.Success? ==> forall a :: a in r.value.working <==> a in listed && (a !in refs || refs[a])
    ensures r.Success? ==> FairShare(replica, ServiceCount(table.slots, listed, refs), r.value.avg)
    ensures r.Failure? <==>
      || replica > |listed| || replica == 0
      || ((forall a :: a in listed ==> !InUse(refs, a)) && Holders(table.slots) <= Members(listed))
    ensures r.Failure? ==>
      r.error == if replica > |listed| then TooFewServices else if replica == 0 then InvalidReplica else NoService
  {
    if replica > |listed| {
      return Failure(TooFewServices);
    }
    if replica == 0 {
      return Failure(InvalidReplica);
    }
    ghost var t := table.slots;
    var m1, working, unref, rest := SplitServices(table, listed, refs);
    var services := |working| + |rest.Keys|;
    CountServices(t, refs, listed, working, rest.Keys);
    if services == 0 {
      return Failure(NoService);
    }
    CountIsShared(t, refs, listed, working, rest.Keys);
    var plan := PlanFor(m1, working, unref, replica, services);
    PlanMade(t, refs, listed, replica, services, m1, working, unref);
    return Success(plan);
  }

  function PlanFor(m1: map<Addr, Meta1>, working: seq<Addr>, unref: seq<Addr>, replica: nat, services: nat): Plan
    requires services > 0
  {
    var avg := AverageScore(replica, services);
    Plan(Marked(m1, avg), working, unref, avg)
  }

  lemma PlanMade(t: Slots, refs: map<Addr, bool>, listed: seq<Addr>, replica: nat, services: nat,
                 m1: map<Addr, Meta1>, working: seq<Addr>, unref: seq<Addr>)
    requires services > 0 && services == ServiceCount(t, listed, refs)
    requires Split(t, refs, Members(listed), m1, working, unref) && InOrder(t, refs, listed, m1, working, unref)
    ensures var plan := PlanFor(m1, working, unref, replica, services);
            && Planned(t, refs, listed, replica, plan) && FairShare(replica, services, plan.avg)
            && plan.working == working && InOrder(t, refs, listed, plan.m1, working, plan.unref)
  {
    var avg := AverageScore(replica, services);
    AverageBounds(replica, services);
    MarkAvailable(t, refs, Members(listed), m1, working, unref, avg);
  }

  lemma CountIsShared(t: Slots, refs: map<Addr, bool>, listed: seq<Addr>, working: seq<Addr>, rest: set<Addr>)
    requires NoDup(working) && forall a :: a in working <==> a in Members(listed) && InUse(refs, a)
    requires rest == Holders(t) - Members(listed)
    ensures |working| + |rest| == ServiceCount(t, listed, refs)
    ensures forall a :: a in working <==> a in listed && (a !in refs || refs[a])
  {
    MembersSize(working);
    assert Members(working) == Working(listed, refs);
  }

  /** Working services above the average become available as sources. */
  function Marked(m1: map<Addr, Meta1>, avg: int): map<Addr, Meta1> {
    map a | a in m1 :: m1[a].(available := m1[a].used && m1[a].score > avg)
  }

  lemma MarkAvailable(t: Slots, refs: map<Addr, bool>, done: set<Addr>,
                      m1: map<Addr, Meta1>, working: seq<Addr>, unref: seq<Addr>, avg: int)
    requires Split(t, refs, done, m1, working, unref)
    ensures Split(t, refs, done, Marked(m1, avg), working, unref)
    ensures forall a :: a in m1 ==>
      (Marked(m1, avg)[a].available <==> a in working && Marked(m1, avg)[a].score > avg)
  {
    var m1' := Marked(m1, avg);
    assert m1'.Keys == m1.Keys;
    forall a | a in m1 ensures Fresh(t, refs, a, m1'[a]) && m1'[a].used == InUse(refs, a) {
      assert Fresh(t, refs, a, m1[a]);
    }
  }

  lemma CountServices(t: Slots, refs: map<Addr, bool>, listed: seq<Addr>, working: seq<Addr>, rest: set<Addr>)
    requires rest == Holders(t) - Members(listed)
    requires forall a :: a in working <==> a in Members(listed) && InUse(refs, a)
    ensures |working| + |rest| == 0 <==>
      (forall a :: a in listed ==> !InUse(refs, a)) && Holders(t) <= Members(listed)
  {
    EmptyOrMember(working);
    assert forall a :: a in listed <==> a in Members(listed);
    assert |rest| == 0 <==> rest == {};
    assert rest == {} <==> Holders(t) <= Members(listed);
  }

  lemma NotEarlier<T(!new)>(s: seq<T>, i: nat)
    requires NoDup(s) && i < |s|
    ensures s[i] !in s[..i]
  {
    if s[i] in s[..i] {
      var j :| 0 <= j < i && s[j] == s[i];
      NoDupAt(s, j, i);
    }
  }

  /** A plan starts a run: table, scores and lists are linked, and the lists are complete. */
  lemma PlanLinks(t: Slots, refs: map<Addr, bool>, listed: seq<Addr>, replica: nat, plan: Plan)
    requires |t| == PREFIXES && DistinctSlots(t) && Planned(t, refs, listed, replica, plan)
    ensures Linked(State(t, plan.m1, {}))
    ensures Complete(State(t, plan.m1, {}), plan.working) && Complete(State(t, plan.m1, {}), plan.unref)
  {
    forall a | a in plan.m1
      ensures LinkedOne(t, a, plan.m1[a]) && forall p :: p in HeldBy(t, a) ==> p in plan.m1[a].pending
    {
      assert Fresh(t, refs, a, plan.m1[a]);
      ElementsSize(plan.m1[a].pending);
      assert forall p :: p in plan.m1[a].pending <==> p in Elements(plan.m1[a].pending);
    }
  }

  // ----- disabling services

  ghost predicate ShareNothing(t: Slots, urls: seq<Addr>) {
    forall i, j :: 0 <= i < j < |urls| ==> HeldBy(t, urls[i]) !! HeldBy(t, urls[j])
  }

  function Disable(refs: map<Addr, bool>, urls: seq<Addr>): map<Addr, bool> {
    if urls == [] then refs else Disable(refs, urls[..|urls| - 1])[urls[|urls| - 1] := false]
  }

  ghost function HeldByAny(t: Slots, urls: seq<Addr>): set<nat> {
    if urls == [] then {} else HeldByAny(t, urls[..|urls| - 1]) + HeldBy(t, urls[|urls| - 1])
  }

  lemma {:induction false} HeldByOneOf(t: Slots, urls: seq<Addr>, p: nat)
    ensures p in HeldByAny(t, urls) <==> exists i :: 0 <= i < |urls| && p in HeldBy(t, urls[i])
  {
    if urls == [] {
    } else {
      HeldByOneOf(t, urls[..|urls| - 1], p);
    }
  }

  /** The mask test of one service: does any of its prefixes already carry a mark? */
  method MaskPrefixes(mask: set<nat>, prefixes: seq<nat>) returns (ok: bool, mask': set<nat>)
    requires NoDup(prefixes)
    ensures ok <==> mask !! Elements(prefixes)
    ensures ok ==> mask' == mask + Elements(prefixes)
  {
    mask' := mask;
    for k := 0 to |prefixes|
      invariant mask' == mask + Elements(prefixes[..k])
      invariant mask !! Elements(prefixes[..k])
    {
      DrainLists(prefixes, k);
      assert prefixes[k] in Elements(prefixes);
      if prefixes[k] in mask' {
        return false, mask';
      }
      mask' := mask' + {prefixes[k]};
    }
    assert prefixes[..|prefixes|] == prefixes;
    ok := true;
  }

  /** `_unref_meta1`: refuses a request naming two holders of one prefix, else marks the services unused. */
  method UnrefMeta1(table: PrefixTable, refs: map<Addr, bool>, urls: seq<Addr>) returns (r: Result<map<Addr, bool>>)
    requires DistinctSlots(table.slots)
    ensures r.Success? <==> ShareNothing(table.slots, urls)
    ensures r.Success? ==> r.value == Disable(refs, urls)
    ensures r.Failure? ==> r.error == SharedPrefix
  {
    ghost var t := table.slots;
    var tree := table.ToTree();
    var mask, refs' := {}, refs;
    for i := 0 to |urls|
      invariant mask == HeldByAny(t, urls[..i])
      invariant ShareNothing(t, urls[..i])
      invariant refs' == Disable(refs, urls[..i])
    {
      var u := urls[i];
      assert urls[..i + 1][..i] == urls[..i] && urls[..i + 1][i] == u;
      TreeEntryIsHeld(t, tree, u);
      var prefixes := if u in tree then tree[u] else [];
      assert Elements(prefixes) == HeldBy(t, u);
      var ok;
      ok, mask := MaskPrefixes(mask, prefixes);
      ShareNext(t, urls, i);
      if !ok {
        return Failure(SharedPrefix);
      }
      refs' := refs'[u := false];
    }
    assert urls[..|urls|] == urls;
    return Success(refs');
  }

  lemma ShareNext(t: Slots, urls: seq<Addr>, i: nat)
    requires i < |urls| && ShareNothing(t, urls[..i])
    ensures HeldByAny(t, urls[..i]) !! HeldBy(t, urls[i]) ==> ShareNothing(t, urls[..i + 1])
    ensures !(HeldByAny(t, urls[..i]) !! HeldBy(t, urls[i])) ==> !ShareNothing(t, urls)
  {
    if p :| p in HeldByAny(t, urls[..i]) && p in HeldBy(t, urls[i]) {
      HeldByOneOf(t, urls[..i], p);
      var j :| 0 <= j < i && p in HeldBy(t, urls[j]);
    } else {
      var l := urls[..i + 1];
      forall j, k | 0 <= j < k < |l| ensures HeldBy(t, l[j]) !! HeldBy(t, l[k]) {
        assert l[j] == urls[..i][j];
        if k == i {
          forall p | p in HeldBy(t, l[j]) ensures p in HeldByAny(t, urls[..i]) {
            HeldByOneOf(t, urls[..i], p);
          }
        } else {
          assert l[k] == urls[..i][k];
        }
      }
    }
  }

  // ----- the operations

  datatype Reference = Reference(used: bool, score: int)

  /** What an operation stores: the table, and for each listed service its state and score. */
  datatype Stored = Stored(slots: Slots, meta1s: map<Addr, Reference>)

  /** Same services per prefix in number, all distinct, and scores that count them. */
  ghost predicate SameDistribution(t: Slots, listed: seq<Addr>, refs: map<Addr, bool>, out: Stored) {
    && |out.slots| == |t| && DistinctSlots(out.slots)
    && (forall p :: 0 <= p < |t| ==> |out.slots[p]| == |t[p]|)
    && (forall a :: a in out.meta1s <==> a in listed)
    && forall a :: a in out.meta1s ==> out.meta1s[a] == Reference(InUse(refs, a), |HeldBy(out.slots, a)|)
  }

  /** No two disabled listed services serve a common prefix. */
  ghost predicate DisabledApart(t: Slots, listed: seq<Addr>, refs: map<Addr, bool>) {
    forall a, b :: a in listed && b in listed && a != b && !InUse(refs, a) && !InUse(refs, b) ==>
      HeldBy(t, a) !! HeldBy(t, b)
  }

  /** The disabled listed services that serve `p`. */
  ghost function DisabledHolders(t: Slots, listed: seq<Addr>, refs: map<Addr, bool>, p: nat): set<Addr>
    requires p < |t|
  {
    set u | u in t[p] && u in listed && !InUse(refs, u)
  }

  /** Every prefix of a disabled service has another replica, and one working service outside its vector per drain. */
  ghost predicate CanBeDrained(t: Slots, listed: seq<Addr>, refs: map<Addr, bool>) {
    forall p: nat :: p < |t| && DisabledHolders(t, listed, refs, p) != {} ==>
      |t[p]| >= 2 && |DisabledHolders(t, listed, refs, p)| <= |Working(listed, refs) - Members(t[p])|
  }

  /** One replica at most was replaced, and fewer hosts remain only where a drain left no choice. */
  ghost predicate ChangedOnce(v0: seq<Addr>, v: seq<Addr>, listed: seq<Addr>, refs: map<Addr, bool>) {
    && |v| == |v0| && (exists i :: 0 <= i < |v0| && v == v0[i := v[i]])
    && (|Hosts(v)| < |Hosts(v0)| ==>
      exists u :: u in v0 && u in listed && !InUse(refs, u) &&
        forall d :: d in listed && InUse(refs, d) ==> !Accepts(v0, Some(u), d, false))
  }

  /** No prefix left alone could still go from an overloaded service to one below the average. */
  ghost predicate NothingToMove(t: Slots, t': Slots, listed: seq<Addr>, refs: map<Addr, bool>, avg: int) {
    forall a, d, p: nat ::
      && a in listed && InUse(refs, a) && d in listed && InUse(refs, d)
      && |HeldBy(t, a)| > avg && |HeldBy(t', a)| > avg && |HeldBy(t', d)| < avg
      && p < |t'| && p < |t| && t'[p] == t[p] && a in t'[p]
      ==> !Accepts(t'[p], Some(a), d, false)
  }

  lemma StoredDistribution(t: Slots, refs: map<Addr, bool>, listed: seq<Addr>, replica: nat, plan: Plan, st: State)
    requires |t| == PREFIXES && Planned(t, refs, listed, replica, plan)
    requires Linked(st) && SameShape(State(t, plan.m1, {}), st)
    ensures SameDistribution(t, listed, refs, StoredState(st))
  {
  }

  function StoredState(st: State): Stored {
    Stored(st.table, map a | a in st.m1 :: Reference(st.m1[a].used, st.m1[a].score))
  }

  lemma PlanApart(t: Slots, refs: map<Addr, bool>, listed: seq<Addr>, replica: nat, plan: Plan)
    requires Planned(t, refs, listed, replica, plan) && forall a :: a in plan.unref ==> a in plan.m1
    ensures Apart(State(t, plan.m1, {}), plan.unref) <==> DisabledApart(t, listed, refs)
  {
    var l, st := plan.unref, State(t, plan.m1, {});
    forall a | a in plan.m1 ensures Elements(plan.m1[a].pending) == HeldBy(t, a) {
      assert Fresh(t, refs, a, plan.m1[a]);
    }
    assert forall a :: a in Members(listed) <==> a in listed;
    if DisabledApart(t, listed, refs) {
      forall i, j | 0 <= i < j < |l| ensures ShareNone(st, l[i], l[j]) {
        NoDupAt(l, i, j);
        assert l[i] in l && l[j] in l;
      }
    }
    if Apart(st, l) {
      forall a, b | a in listed && b in listed && a != b && !InUse(refs, a) && !InUse(refs, b)
        ensures HeldBy(t, a) !! HeldBy(t, b)
      {
        if a in l && b in l {
          var i :| 0 <= i < |l| && l[i] == a;
          var j :| 0 <= j < |l| && l[j] == b;
          assert if i < j then ShareNone(st, l[i], l[j]) else ShareNone(st, l[j], l[i]);
        } else {
          assert HeldBy(t, a) == {} || HeldBy(t, b) == {} by {
            NothingPending(plan.m1[a].pending);
            NothingPending(plan.m1[b].pending);
          }
        }
      }
    }
  }

  lemma NothingPending(s: seq<nat>)
    ensures s == [] ==> Elements(s) == {}
  {
  }

  /** The turns of a prefix in the drain are its disabled holders. */
  lemma {:induction false} TurnsCount(st: State, list: seq<Addr>, i: nat, p: nat)
    requires i <= |list| && NoDup(list) && forall a :: a in list ==> a in st.m1
    ensures Turns(st, list, i, p) == |TurnsOf(st, list, i, p)|
  {
    if i == 0 {
      assert TurnsOf(st, list, i, p) == {};
    } else {
      TurnsCount(st, list, i - 1, p);
      var u := list[i - 1];
      NotEarlier(list, i - 1);
      assert list[..i] == list[..i - 1] + [u];
      assert u in list;
      assert TurnsOf(st, list, i, p) == TurnsOf(st, list, i - 1, p) + if p in st.m1[u].pending then {u} else {};
    }
  }

  ghost function TurnsOf(st: State, list: seq<Addr>, i: nat, p: nat): set<Addr>
    requires i <= |list| && forall a :: a in list ==> a in st.m1
  {
    set u | u in list[..i] && u in st.m1 && p in st.m1[u].pending
  }

  lemma TurnsAreHolders(t: Slots, refs: map<Addr, bool>, listed: seq<Addr>, replica: nat, plan: Plan, p: nat)
    requires Planned(t, refs, listed, replica, plan) && p < |t|
    requires forall a :: a in plan.unref ==> a in plan.m1
    ensures Turns(State(t, plan.m1, {}), plan.unref, |plan.unref|, p) == |DisabledHolders(t, listed, refs, p)|
  {
    var st, l := State(t, plan.m1, {}), plan.unref;
    TurnsCount(st, l, |l|, p);
    assert l[..|l|] == l;
    assert forall a :: a in Members(listed) <==> a in listed;
    forall u ensures u in TurnsOf(st, l, |l|, p) <==> u in DisabledHolders(t, listed, refs, p) {
      if u in plan.m1 {
        assert Fresh(t, refs, u, plan.m1[u]);
        assert p in plan.m1[u].pending <==> p in Elements(plan.m1[u].pending);
      }
    }
    assert TurnsOf(st, l, |l|, p) == DisabledHolders(t, listed, refs, p);
  }

  /** Whether the drain succeeds can be read off the stored table. */
  lemma PlanDrainable(t: Slots, refs: map<Addr, bool>, listed: seq<Addr>, replica: nat, plan: Plan)
    requires Planned(t, refs, listed, replica, plan) && forall a :: a in plan.unref ==> a in plan.m1
    ensures Feasible(State(t, plan.m1, {}), plan.working, plan.unref) <==> CanBeDrained(t, listed, refs)
  {
    assert Members(plan.working) == Working(listed, refs) by {
      assert forall a :: a in Members(listed) <==> a in listed;
    }
    forall p: nat | p < |t|
      ensures Turns(State(t, plan.m1, {}), plan.unref, |plan.unref|, p) == |DisabledHolders(t, listed, refs, p)|
    {
      TurnsAreHolders(t, refs, listed, replica, plan, p);
    }
  }

  /** With the disabled services apart, one working service outside the vector is enough. */
  lemma ApartNeedsOne(t: Slots, listed: seq<Addr>, refs: map<Addr, bool>)
    requires DisabledApart(t, listed, refs)
    ensures CanBeDrained(t, listed, refs) <==>
      forall u, p: nat :: u in listed && !InUse(refs, u) && p < |t| && u in t[p] ==>
        |t[p]| >= 2 && exists d :: d in listed && InUse(refs, d) && d !in t[p]
  {
    forall u, p: nat | u in listed && !InUse(refs, u) && p < |t| && u in t[p]
      ensures DisabledHolders(t, listed, refs, p) == {u}
      ensures |Working(listed, refs) - Members(t[p])| > 0 <==> exists d :: d in listed && InUse(refs, d) && d !in t[p]
    {
      assert p in HeldBy(t, u);
      forall v | v in DisabledHolders(t, listed, refs, p) ensures v == u {
        assert p in HeldBy(t, v);
      }
      var outside := Working(listed, refs) - Members(t[p]);
      assert forall d :: d in outside <==> d in listed && InUse(refs, d) && d !in t[p];
      assert |outside| > 0 ==> exists d :: d in outside;
    }
    forall p: nat | p < |t| && DisabledHolders(t, listed, refs, p) != {}
      ensures exists u :: u in listed && !InUse(refs, u) && u in t[p]
    {
      var u :| u in DisabledHolders(t, listed, refs, p);
    }
  }

  lemma MovedIsChangedOnce(v0: seq<Addr>, v: seq<Addr>, listed: seq<Addr>, refs: map<Addr, bool>,
                           working: seq<Addr>, unref: seq<Addr>)
    requires NoDup(v0) && MovedOnce(v0, v, working, unref)
    requires forall a :: a in working <==> a in listed && InUse(refs, a)
    requires forall a :: a in unref ==> a in listed && !InUse(refs, a)
    ensures ChangedOnce(v0, v, listed, refs) && v != v0
  {
    MovedOnceMeaning(v0, v, working, unref);
    var s, d :| HandedOver(v0, v, s, d, working, unref);
    ReplaceFirstMembers(v0, s, d);
  }

  /** What the allocator cannot move any more, read on the two tables alone. */
  lemma ExhaustedIsNothingToMove(t: Slots, refs: map<Addr, bool>, listed: seq<Addr>, replica: nat,
                                 plan: Plan, st: State)
    requires |t| == PREFIXES && Planned(t, refs, listed, replica, plan)
    requires Linked(st) && SameShape(State(t, plan.m1, {}), st)
    requires forall p: nat :: p < PREFIXES ==> (p in st.treated <==> st.table[p] != t[p])
    ensures Exhausted(st, plan.working, plan.avg, Sources(State(t, plan.m1, {}), plan.working)) <==>
      NothingToMove(t, st.table, listed, refs, plan.avg)
  {
    var sources := Sources(State(t, plan.m1, {}), plan.working);
    forall a ensures a in sources <==> a in listed && InUse(refs, a) && |HeldBy(t, a)| > plan.avg {
      assert a in Members(listed) <==> a in listed;
      if a in plan.m1 {
        assert Fresh(t, refs, a, plan.m1[a]);
        ElementsSize(plan.m1[a].pending);
      }
    }
    forall a | a in st.m1
      ensures st.m1[a].score == |HeldBy(st.table, a)| && (a in plan.working <==> a in listed && InUse(refs, a))
    {
      assert LinkedOne(st.table, a, st.m1[a]);
      assert a in Members(listed) <==> a in listed;
    }
    ReadOnTables(t, st, plan.working, listed, refs, plan.avg, sources);
  }

  lemma ReadOnTables(t: Slots, st: State, working: seq<Addr>, listed: seq<Addr>, refs: map<Addr, bool>,
                     avg: int, sources: set<Addr>)
    requires |t| == |st.table| && (forall a :: a in listed ==> a in st.m1)
    requires forall a :: a in sources <==> a in listed && InUse(refs, a) && |HeldBy(t, a)| > avg
    requires forall a :: a in working <==> a in listed && InUse(refs, a)
    requires forall a :: a in st.m1 ==> st.m1[a].score == |HeldBy(st.table, a)|
    requires forall p: nat :: p < |t| ==> (p in st.treated <==> st.table[p] != t[p])
    ensures Exhausted(st, working, avg, sources) <==> NothingToMove(t, st.table, listed, refs, avg)
  {
    if Exhausted(st, working, avg, sources) {
      forall a, d, p: nat |
        && a in listed && InUse(refs, a) && d in listed && InUse(refs, d)
        && |HeldBy(t, a)| > avg && |HeldBy(st.table, a)| > avg && |HeldBy(st.table, d)| < avg
        && p < |st.table| && p < |t| && st.table[p] == t[p] && a in st.table[p]
        ensures !Accepts(st.table[p], Some(a), d, false)
      {
        assert p in HeldBy(st.table, a) && NoTaker(st, working, avg, a, p);
      }
    }
  }

  lemma TrackedChanges(t: Slots, refs: map<Addr, bool>, listed: seq<Addr>, replica: nat, plan: Plan, st: State)
    requires |t| == PREFIXES && DistinctSlots(t) && Planned(t, refs, listed, replica, plan)
    requires Tracked(State(t, plan.m1, {}), st, plan.working, plan.unref)
    ensures |st.table| == PREFIXES
    ensures forall p :: 0 <= p < PREFIXES ==> st.table[p] == t[p] || ChangedOnce(t[p], st.table[p], listed, refs)
  {
    forall p: nat | p < PREFIXES ensures st.table[p] == t[p] || ChangedOnce(t[p], st.table[p], listed, refs) {
      if p in st.treated {
        MovedIsChangedOnce(t[p], st.table[p], listed, refs, plan.working, plan.unref);
      }
    }
  }

  lemma AllDrained(t: Slots, refs: map<Addr, bool>, listed: seq<Addr>, replica: nat, plan: Plan, t': Slots)
    requires Planned(t, refs, listed, replica, plan)
    requires forall u :: u in plan.unref ==> HeldBy(t', u) == {}
    requires forall a :: a in plan.m1 && a !in plan.working && a !in plan.unref ==> HeldBy(t', a) == HeldBy(t, a)
    ensures forall u :: u in listed && !InUse(refs, u) ==> HeldBy(t', u) == {}
  {
  }

  /** The stored table is the end of a run on `slots`. */
  ghost predicate Reassigned(slots: Slots, listed: seq<Addr>, refs: map<Addr, bool>, out: Stored) {
    && SameDistribution(slots, listed, refs, out)
    && forall u :: u in listed && !InUse(refs, u) ==> HeldBy(out.slots, u) == {}
  }

  /** Every prefix was left alone or changed once. */
  ghost predicate ChangedOnceOnly(slots: Slots, listed: seq<Addr>, refs: map<Addr, bool>, out: Stored) {
    |out.slots| == |slots| && forall p :: 0 <= p < |slots| ==>
      out.slots[p] == slots[p] || ChangedOnce(slots[p], out.slots[p], listed, refs)
  }

  /** Two disabled services that shared a prefix are both gone from it: two changes. */
  lemma SharedChangesTwice(slots: Slots, listed: seq<Addr>, refs: map<Addr, bool>, out: Stored)
    requires Reassigned(slots, listed, refs, out) && !DisabledApart(slots, listed, refs)
    ensures !ChangedOnceOnly(slots, listed, refs, out)
  {
    var a, b :| a in listed && b in listed && a != b && !InUse(refs, a) && !InUse(refs, b) &&
      !(HeldBy(slots, a) !! HeldBy(slots, b));
    var p :| p in HeldBy(slots, a) && p in HeldBy(slots, b);
    assert p !in HeldBy(out.slots, a) && p !in HeldBy(out.slots, b);
    var i :| 0 <= i < |slots[p]| && slots[p][i] == a;
    var j :| 0 <= j < |slots[p]| && slots[p][j] == b;
    assert out.slots[p][i] != a && out.slots[p][j] != b;
  }

  ghost predicate CanReassign(slots: Slots, listed: seq<Addr>, refs: map<Addr, bool>)
    requires |slots| == PREFIXES
  {
    && 1 <= |slots[0]| <= |listed| && ServiceCount(slots, listed, refs) > 0
    && CanBeDrained(slots, listed, refs)
  }

  /** The error of a request that cannot be met. */
  ghost function WhyNot(slots: Slots, listed: seq<Addr>, refs: map<Addr, bool>): Error
    requires |slots| == PREFIXES
  {
    if |slots[0]| > |listed| then TooFewServices
    else if |slots[0]| == 0 then InvalidReplica
    else if ServiceCount(slots, listed, refs) == 0 then NoService
    else if Working(listed, refs) == {} then Died
    else Unplaceable
  }

  /** A plan on which a run can start. */
  ghost predicate Startable(slots: Slots, plan: Plan) {
    && Linked(State(slots, plan.m1, {})) && NoDup(plan.working) && (forall a :: a in plan.working ==> a in plan.m1)
    && forall a :: a in plan.unref ==> a in plan.m1 && a !in plan.working
  }

  /** The count of hand-overs stops the run of the plan before it is done. */
  ghost predicate CountedOut(slots: Slots, plan: Plan)
    requires Startable(slots, plan)
  {
    StopsShort(State(slots, plan.m1, {}), plan.working, plan.unref, plan.avg)
  }

  /**
   What a successful run does. The vectors keep their length and the drained services are gone; each
   prefix changes at most once iff the disabled services share none; no move is left unless the count
   of hand-overs, right only for services that share none, stopped the run.
   */
  ghost predicate RunDone(slots: Slots, listed: seq<Addr>, refs: map<Addr, bool>, plan: Plan, out: Stored) {
    && Reassigned(slots, listed, refs, out)
    && (ChangedOnceOnly(slots, listed, refs, out) <==> DisabledApart(slots, listed, refs))
    && Startable(slots, plan)
    && (NothingToMove(slots, out.slots, listed, refs, plan.avg) <==> !CountedOut(slots, plan))
    && (CountedOut(slots, plan) ==>
      && !DisabledApart(slots, listed, refs)
      && HandOvers(State(slots, plan.m1, {}), plan.unref, |plan.unref|) <= PREFIXES)
  }

  /** `meta0_assign_prefix_to_meta1`, past its optional check of the delay and of the deviation. */
  method AssignPrefixes(slots: Slots, listed: seq<Addr>, refs: map<Addr, bool>)
    returns (r: Result<Stored>, ghost plan: Plan)
    requires |slots| == PREFIXES && DistinctSlots(slots) && NoDup(listed)
    ensures r.Success? <==> CanReassign(slots, listed, refs)
    ensures r.Failure? ==> r.error == WhyNot(slots, listed, refs)
    ensures r.Success? ==>
      && Planned(slots, refs, listed, |slots[0]|, plan)
      && InOrder(slots, refs, listed, plan.m1, plan.working, plan.unref)
      && RunDone(slots, listed, refs, plan, r.value)
  {
    var table := new PrefixTable();
    table.slots := slots;
    var init := InitAssign(table, listed, refs, |slots[0]|);
    plan := Plan(map[], [], [], 0);
    if init.Failure? {
      NoServiceMeans(slots, listed, refs);
      return Failure(init.error), plan;
    }
    plan := init.value;
    r := Run(table, listed, refs, init.value);
  }

  lemma NoServiceMeans(t: Slots, listed: seq<Addr>, refs: map<Addr, bool>)
    ensures ServiceCount(t, listed, refs) == 0 <==>
      (forall a :: a in listed ==> !InUse(refs, a)) && Holders(t) <= Members(listed)
  {
    assert |Working(listed, refs)| == 0 <==> Working(listed, refs) == {};
    assert Working(listed, refs) == {} <==> forall a :: a in listed ==> !InUse(refs, a) by {
      assert forall a :: a in Working(listed, refs) <==> a in listed && InUse(refs, a);
    }
  }

  method Run(table: PrefixTable, listed: seq<Addr>, refs: map<Addr, bool>, plan: Plan) returns (r: Result<Stored>)
    requires |table.slots| == PREFIXES && DistinctSlots(table.slots) && NoDup(listed)
    requires Planned(table.slots, refs, listed, |table.slots[0]|, plan)
    modifies table
    ensures r.Success? <==> CanBeDrained(old(table.slots), listed, refs)
    ensures r.Failure? ==> r.error == if Working(listed, refs) == {} then Died else Unplaceable
    ensures r.Success? ==> RunDone(old(table.slots), listed, refs, plan, r.value)
  {
    ghost var t, replica := table.slots, |table.slots[0]|;
    PlanLinks(t, refs, listed, replica, plan);
    PlanDrainable(t, refs, listed, replica, plan);
    PlanApart(t, refs, listed, replica, plan);
    var allocator := new Allocator(table, plan.avg, plan.m1);
    assert allocator.Now() == State(t, plan.m1, {});
    var ok, _ := allocator.Assign(plan.working, plan.unref, listed);
    if !ok {
      EmptyOrMember(plan.working);
      assert forall a :: a in Working(listed, refs) <==> a in plan.working by {
        assert forall a :: a in Members(listed) <==> a in listed;
      }
      return Failure(if plan.working == [] then Died else Unplaceable);
    }
    ghost var st := allocator.Now();
    RunEnds(t, refs, listed, replica, plan, st);
    return Success(StoredState(State(table.slots, allocator.m1, allocator.treated)));
  }

  /** The end of a run, in terms of what is stored. */
  lemma RunEnds(t: Slots, refs: map<Addr, bool>, listed: seq<Addr>, replica: nat, plan: Plan, st: State)
    requires |t| == PREFIXES && DistinctSlots(t) && Planned(t, refs, listed, replica, plan) && Startable(t, plan)
    requires Linked(st) && SameShape(State(t, plan.m1, {}), st)
    requires forall u :: u in plan.unref ==> HeldBy(st.table, u) == {}
    requires forall a :: a in plan.m1 && a !in plan.working && a !in plan.unref ==> HeldBy(st.table, a) == HeldBy(t, a)
    requires forall p: nat :: p < PREFIXES ==> (p in st.treated <==> st.table[p] != t[p])
    requires Tracked(State(t, plan.m1, {}), st, plan.working, plan.unref) <==> DisabledApart(t, listed, refs)
    requires Exhausted(st, plan.working, plan.avg, Sources(State(t, plan.m1, {}), plan.working)) <==>
      !CountedOut(t, plan)
    requires CountedOut(t, plan) ==>
      && !DisabledApart(t, listed, refs)
      && HandOvers(State(t, plan.m1, {}), plan.unref, |plan.unref|) <= PREFIXES
    ensures RunDone(t, listed, refs, plan, StoredState(st))
  {
    StoredDistribution(t, refs, listed, replica, plan, st);
    AllDrained(t, refs, listed, replica, plan, st.table);
    ExhaustedIsNothingToMove(t, refs, listed, replica, plan, st);
    if DisabledApart(t, listed, refs) {
      TrackedChanges(t, refs, listed, replica, plan, st);
    } else {
      SharedChangesTwice(t, listed, refs, StoredState(st));
    }
  }

  lemma {:induction false} DisableMarks(refs: map<Addr, bool>, urls: seq<Addr>, a: Addr)
    ensures InUse(Disable(refs, urls), a) <==> a !in urls && InUse(refs, a)
  {
    if urls == [] {
    } else {
      var head, last := urls[..|urls| - 1], urls[|urls| - 1];
      assert urls == head + [last];
      DisableMarks(refs, head, a);
    }
  }

  /** The mask of one request keeps the services it names apart. */
  lemma MaskKeepsApart(t: Slots, listed: seq<Addr>, refs: map<Addr, bool>, urls: seq<Addr>)
    requires ShareNothing(t, urls) && forall a :: a in listed ==> InUse(refs, a)
    ensures DisabledApart(t, listed, Disable(refs, urls))
  {
    var refs' := Disable(refs, urls);
    forall a, b | a in listed && b in listed && a != b && !InUse(refs', a) && !InUse(refs', b)
      ensures HeldBy(t, a) !! HeldBy(t, b)
    {
      DisableMarks(refs, urls, a);
      DisableMarks(refs, urls, b);
      var i :| 0 <= i < |urls| && urls[i] == a;
      var j :| 0 <= j < |urls| && urls[j] == b;
    }
  }

  /** `meta0_assign_disable_meta1`, past its optional check of the delay. */
  method DisableMeta1(slots: Slots, listed: seq<Addr>, refs: map<Addr, bool>, urls: seq<Addr>)
    returns (r: Result<Stored>, ghost plan: Plan)
    requires |slots| == PREFIXES && DistinctSlots(slots) && NoDup(listed)
    ensures r.Success? <==> ShareNothing(slots, urls) && CanReassign(slots, listed, Disable(refs, urls))
    ensures r.Failure? ==>
      r.error == if ShareNothing(slots, urls) then WhyNot(slots, listed, Disable(refs, urls)) else SharedPrefix
    ensures r.Success? ==>
      && Planned(slots, Disable(refs, urls), listed, |slots[0]|, plan)
      && InOrder(slots, Disable(refs, urls), listed, plan.m1, plan.working, plan.unref)
      && RunDone(slots, listed, Disable(refs, urls), plan, r.value)
    ensures r.Success? ==> forall u :: u in listed && u in urls ==> HeldBy(r.value.slots, u) == {}
  {
    var table := new PrefixTable();
    table.slots := slots;
    plan := Plan(map[], [], [], 0);
    var unref := UnrefMeta1(table, refs, urls);
    if unref.Failure? {
      return Failure(unref.error), plan;
    }
    r, plan := AssignPrefixes(slots, listed, unref.value);
    if r.Success? {
      forall u | u in listed && u in urls ensures HeldBy(r.value.slots, u) == {} {
        DisableMarks(refs, urls, u);
      }
    }
  }
}
