/**
 A run of the META0 allocator that stops with moves left (`_assign`, meta0v2/meta0_prefixassign.c):
 three disabled services share 21845 prefixes, so the drain counts 65535 of them, and the rebalancing
 ends after one move.
 */
module Meta0ShortRun {
  import opened Collections
  import opened Meta0Utils
  import opened Meta0AssignModel
  import opened Meta0Drain
  import opened Meta0Moves
  import opened Meta0Assign

  const SHARED: nat := 21845

  /** 196608 places over four working services and two that are not listed. */
  const AVERAGE: int := 32768

  function Numbers(lo: nat, hi: nat): (s: seq<nat>)
    requires lo <= hi
    ensures |s| == hi - lo && forall i :: 0 <= i < |s| ==> s[i] == lo + i
  {
    seq(hi - lo, i requires 0 <= i => lo + i)
  }

  lemma {:induction false} NumbersDistinct(lo: nat, hi: nat)
    requires lo <= hi
    ensures NoDup(Numbers(lo, hi))
    decreases hi - lo
  {
    if lo == hi {
      assert Numbers(lo, hi) == [];
    } else {
      var last: nat := hi - 1;
      NumbersDistinct(lo, last);
      assert Numbers(lo, hi) == Numbers(lo, last) + [last];
      AddNoDup(Numbers(lo, last), last);
    }
  }

  lemma NumbersHold(lo: nat, hi: nat, p: nat)
    requires lo <= hi
    ensures p in Numbers(lo, hi) <==> lo <= p < hi
  {
    assert lo <= p < hi ==> Numbers(lo, hi)[p - lo] == p;
  }

  // ----- starts of which the drain counts 65535 prefixes, but treats 21845

  ghost predicate ProperLists(working: seq<Addr>, unref: seq<Addr>, listed: seq<Addr>) {
    && NoDup(working) && NoDup(unref) && NoDup(listed)
    && (forall u :: u in unref ==> u !in working) && forall c :: c in working || c in unref ==> c in listed
  }

  /** The last prefixes are on `a`, and `b` could take them. */
  ghost predicate OthersOn(t: Slots, a: Addr, b: Addr, others: seq<Addr>) {
    && a in others && b !in others && Accepts(others, Some(a), b, false)
    && |t| == PREFIXES && forall p: nat :: SHARED <= p < PREFIXES ==> t[p] == others
  }

  /** The drained services share the first prefixes; the others are on `a`, the only source. */
  ghost predicate SharedStart(begin: State, working: seq<Addr>, unref: seq<Addr>, listed: seq<Addr>,
                              a: Addr, b: Addr, others: seq<Addr>)
  {
    && Linked(begin) && begin.treated == {} && Complete(begin, working) && Complete(begin, unref)
    && ProperLists(working, unref, listed) && OthersOn(begin.table, a, b, others)
    && a in working && b in working && Sources(begin, working) == {a}
    && SharedCount(begin, working, unref)
  }

  ghost predicate SharedCount(begin: State, working: seq<Addr>, unref: seq<Addr>)
    requires forall u :: u in unref ==> u in begin.m1
  {
    && PendingOf(begin, unref, |unref|) == Elements(Numbers(0, SHARED))
    && Feasible(begin, working, unref) && HandOvers(begin, unref, |unref|) == PREFIXES - 1
  }

  /** What the drain leaves, whatever it chose. */
  ghost predicate DrainedStart(st: State, a: Addr, b: Addr, others: seq<Addr>) {
    && Linked(st) && a in st.m1 && b in st.m1 && a in others && b !in others
    && st.treated == Elements(Numbers(0, SHARED))
    && forall p: nat :: SHARED <= p < PREFIXES ==> st.table[p] == others
  }

  lemma ScoresAfterDrain(st: State, a: Addr, b: Addr, others: seq<Addr>)
    requires DrainedStart(st, a, b, others)
    ensures st.m1[a].score >= PREFIXES - SHARED && st.m1[b].score <= SHARED && |st.treated| == SHARED
  {
    NumbersDistinct(0, SHARED);
    ElementsSize(Numbers(0, SHARED));
    var high := Elements(Numbers(SHARED, PREFIXES));
    NumbersDistinct(SHARED, PREFIXES);
    ElementsSize(Numbers(SHARED, PREFIXES));
    forall p | p in high ensures p in HeldBy(st.table, a) {
      NumbersHold(SHARED, PREFIXES, p);
    }
    SubsetSize(high, HeldBy(st.table, a));
    BoundedSize(HeldBy(st.table, b), SHARED);
    assert LinkedOne(st.table, a, st.m1[a]) && LinkedOne(st.table, b, st.m1[b]);
  }

  lemma UntreatedLeft(treated: set<nat>, before: set<nat>, n: nat) returns (p: nat)
    requires before <= treated && |treated| <= |before| + 1 && forall q :: q in before ==> q < n
    ensures n <= p <= n + 1 && p !in treated
  {
    p := if n in treated then n + 1 else n;
    if n in treated && n + 1 in treated {
      SubsetSize(before + {n, n + 1}, treated);
    }
  }

  /** One move later the source still has a prefix that a service below the average would take. */
  lemma StillMovable(st: State, end: State, n: nat, working: seq<Addr>, a: Addr, b: Addr, others: seq<Addr>)
    requires DrainedStart(st, a, b, others) && Reached(st, end, working, n) && n <= 1
    requires a in working && b in working && Accepts(others, Some(a), b, false)
    ensures !Exhausted(end, working, AVERAGE, {a})
  {
    ScoresAfterDrain(st, a, b, others);
    forall q | q in st.treated ensures q < SHARED {
      NumbersHold(0, SHARED, q);
    }
    var p := UntreatedLeft(end.treated, st.treated, SHARED);
    assert end.table[p] == others;
    assert p in HeldBy(end.table, a) && !NoTaker(end, working, AVERAGE, a, p);
  }

  lemma DrainedFromStart(begin: State, st: State, working: seq<Addr>, unref: seq<Addr>, listed: seq<Addr>,
                         a: Addr, b: Addr, others: seq<Addr>)
    requires SharedStart(begin, working, unref, listed, a, b, others)
    requires DrainedFrame(begin, st, working, unref, listed, |unref|)
    ensures DrainedStart(st, a, b, others)
  {
    forall p: nat | SHARED <= p < PREFIXES ensures st.table[p] == others {
      NumbersHold(0, SHARED, p);
    }
  }

  lemma MovesLeft(begin: State, st: State, working: seq<Addr>, unref: seq<Addr>, listed: seq<Addr>,
                  a: Addr, b: Addr, others: seq<Addr>)
    requires SharedStart(begin, working, unref, listed, a, b, others) && Runnable(st, working, working)
    requires DrainedFrame(begin, st, working, unref, listed, |unref|)
    ensures Short(st, working, PREFIXES - 1, AVERAGE)
  {
    DrainedFromStart(begin, st, working, unref, listed, a, b, others);
    SettledAfterDrain(begin, st, working, unref, listed, AVERAGE);
    var end := RunsOut(st, working, working, AVERAGE, {a});
    if Moves(st, working, working, AVERAGE) <= 1 {
      StillMovable(st, end, Moves(st, working, working, AVERAGE), working, a, b, others);
    }
  }

  /** From such a start the run succeeds, notes a prefix met twice, and leaves something to move. */
  method StopsWithMovesLeft(slots: Slots, m1: map<Addr, Meta1>, working: seq<Addr>, unref: seq<Addr>,
                            ghost listed: seq<Addr>, ghost a: Addr, ghost b: Addr, ghost others: seq<Addr>)
    returns (allocator: Allocator, ok: bool, twice: bool)
    requires SharedStart(State(slots, m1, {}), working, unref, listed, a, b, others)
    ensures ok && twice && !Exhausted(allocator.Now(), working, AVERAGE, {a})
  {
    ghost var begin := State(slots, m1, {});
    var table := new PrefixTable();
    table.slots := slots;
    allocator := new Allocator(table, AVERAGE, m1);
    assert allocator.Now() == begin;
    ok, twice := allocator.Assign(working, unref, listed);
    MovesLeft(begin, DrainAll(begin, working, unref, 0, AVERAGE).value, working, unref, listed, a, b, others);
  }

  // ----- one such start

  /** Seven listed services on one host, two outsiders on another. */
  function Service(i: nat): Addr {
    Addr(if i <= 7 then "a" else "bb", i)
  }

  function Unref(): seq<Addr> {
    [Service(1), Service(2), Service(3)]
  }

  function Working(): seq<Addr> {
    [Service(4), Service(5), Service(6), Service(7)]
  }

  function Others(): seq<Addr> {
    [Service(4), Service(8), Service(9)]
  }

  /** The first prefixes are on the disabled services, the others on one working service and two outsiders. */
  function Table(): (t: Slots)
    ensures |t| == PREFIXES && forall p :: 0 <= p < |t| ==> t[p] == if p < SHARED then Unref() else Others()
  {
    seq(PREFIXES, p => if p < SHARED then Unref() else Others())
  }

  function Records(): map<Addr, Meta1> {
    var shared := Meta1(SHARED, false, false, Numbers(0, SHARED));
    var idle := Meta1(0, false, true, []);
    map[Service(1) := shared, Service(2) := shared, Service(3) := shared,
        Service(4) := Meta1(PREFIXES - SHARED, true, true, Numbers(SHARED, PREFIXES)),
        Service(5) := idle, Service(6) := idle, Service(7) := idle]
  }

  ghost function Begin(): State {
    State(Table(), Records(), {})
  }

  lemma ThreeDistinct(a: Addr, b: Addr, c: Addr)
    requires a != b && a != c && b != c
    ensures NoDup([a, b, c])
  {
  }

  lemma ListsDistinct()
    ensures NoDup(Working()) && NoDup(Unref()) && NoDup(Unref() + Working()) && NoDup(Others())
  {
    ThreeDistinct(Service(1), Service(2), Service(3));
    ThreeDistinct(Service(4), Service(8), Service(9));
    ThreeDistinct(Service(4), Service(5), Service(6));
    AddNoDup([Service(4), Service(5), Service(6)], Service(7));
    assert Working() == [Service(4), Service(5), Service(6)] + [Service(7)];
    var l1, l2, l3 := Unref() + [Service(4)], Unref() + [Service(4)] + [Service(5)],
      Unref() + [Service(4)] + [Service(5)] + [Service(6)];
    AddNoDup(Unref(), Service(4));
    AddNoDup(l1, Service(5));
    AddNoDup(l2, Service(6));
    AddNoDup(l3, Service(7));
    assert Unref() + Working() == l3 + [Service(7)];
  }

  /** The prefixes each service serves at the start. */
  function Held(i: nat): seq<nat> {
    if i <= 3 then Numbers(0, SHARED) else if i == 4 then Numbers(SHARED, PREFIXES) else []
  }

  lemma HeldAtStart(i: nat)
    requires 1 <= i <= 7
    ensures NoDup(Held(i)) && HeldBy(Table(), Service(i)) == Elements(Held(i))
  {
    NumbersDistinct(0, SHARED);
    NumbersDistinct(SHARED, PREFIXES);
    assert Service(i) in Unref() <==> i <= 3;
    assert Service(i) in Others() <==> i == 4;
    forall p: nat ensures p in HeldBy(Table(), Service(i)) <==> p in Elements(Held(i)) {
      NumbersHold(0, SHARED, p);
      NumbersHold(SHARED, PREFIXES, p);
    }
  }

  lemma RecordAtStart(a: Addr)
    requires a in Records()
    ensures 1 <= a.port <= 7 && a == Service(a.port)
    ensures Records()[a].pending == Held(a.port) && Records()[a].score == |Held(a.port)|
  {
  }

  lemma LinkedAtStart(a: Addr)
    requires a in Records()
    ensures LinkedOne(Table(), a, Records()[a]) && forall p :: p in HeldBy(Table(), a) ==> p in Records()[a].pending
  {
    RecordAtStart(a);
    HeldAtStart(a.port);
    ElementsSize(Held(a.port));
  }

  lemma StartLinked()
    ensures Linked(Begin()) && Complete(Begin(), Working()) && Complete(Begin(), Unref())
  {
    ListsDistinct();
    forall a | a in Records()
      ensures LinkedOne(Table(), a, Records()[a]) && forall p :: p in HeldBy(Table(), a) ==> p in Records()[a].pending
    {
      LinkedAtStart(a);
    }
  }

  lemma {:induction false} TurnsAtStart(i: nat, p: nat)
    requires i <= 3
    ensures forall a :: a in Unref() ==> a in Begin().m1
    ensures Turns(Begin(), Unref(), i, p) == if p < SHARED then i else 0
    ensures HandOvers(Begin(), Unref(), i) == i * SHARED
    ensures i > 0 ==> PendingOf(Begin(), Unref(), i) == Elements(Numbers(0, SHARED))
  {
    if i == 0 {
    } else {
      TurnsAtStart(i - 1, p);
      assert Unref()[i - 1] == Service(i) && Begin().m1[Service(i)].pending == Numbers(0, SHARED);
      NumbersHold(0, SHARED, p);
    }
  }

  lemma RoomAtStart()
    ensures Room(Unref(), Working()) == 4
  {
    ListsDistinct();
    MembersSize(Working());
    assert forall a :: a in Working() ==> a.port >= 4;
    assert forall a :: a in Unref() ==> a.port <= 3;
    assert Members(Working()) - Members(Unref()) == Members(Working());
  }

  /** Each shared prefix has four working services outside its vector for its three drains. */
  lemma StartFeasible()
    requires forall a :: a in Unref() ==> a in Begin().m1
    ensures Feasible(Begin(), Working(), Unref())
  {
    forall p: nat | p < PREFIXES && Turns(Begin(), Unref(), 3, p) > 0
      ensures |Begin().table[p]| >= 2 && Turns(Begin(), Unref(), 3, p) <= Room(Begin().table[p], Working())
    {
      TurnsAtStart(3, p);
      RoomAtStart();
    }
  }

  lemma OthersAccept()
    ensures Accepts(Others(), Some(Service(4)), Service(5), false)
  {
    assert Others()[1] in Others() && Some(Service(8)) != Some(Service(4));
    forall u | u in Others() && Some(u) != Some(Service(4)) ensures !Conflicts(u, Some(Service(4)), Service(5), false) {
      assert u == Service(8) || u == Service(9);
    }
  }

  lemma StartOthers()
    ensures OthersOn(Table(), Service(4), Service(5), Others())
  {
    OthersAccept();
    assert Others()[0] == Service(4) && Service(5) !in Others();
  }

  lemma StartLists()
    ensures ProperLists(Working(), Unref(), Unref() + Working())
    ensures Service(4) in Working() && Service(5) in Working()
  {
    ListsDistinct();
    assert forall u :: u in Unref() ==> u.port <= 3;
    assert forall u :: u in Working() ==> u.port >= 4;
    assert Service(4) == Working()[0] && Service(5) == Working()[1];
  }

  lemma StartSources()
    ensures Sources(Begin(), Working()) == {Service(4)}
  {
    assert Service(4) == Working()[0];
  }

  lemma StartCount()
    ensures (forall u :: u in Unref() ==> u in Records()) && SharedCount(Begin(), Working(), Unref())
  {
    TurnsAtStart(3, 0);
    StartFeasible();
  }

  /** The start above is one of them. */
  lemma StartIsShared()
    ensures SharedStart(Begin(), Working(), Unref(), Unref() + Working(), Service(4), Service(5), Others())
  {
    StartCount();
    StartLinked();
    StartLists();
    StartOthers();
    StartSources();
  }

  method OneSuchRun() returns (allocator: Allocator, ok: bool, twice: bool)
    ensures ok && twice && !Exhausted(allocator.Now(), Working(), AVERAGE, {Service(4)})
  {
    StartIsShared();
    allocator, ok, twice := StopsWithMovesLeft(Table(), Records(), Working(), Unref(), Unref() + Working(),
                                               Service(4), Service(5), Others());
  }
}
