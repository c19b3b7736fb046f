/**
 What the greedy rebalancing does (second loop of `_assign`,
 meta0v2/meta0_prefixassign.c), stated on the allocator's states.
 */
module Meta0Rebalance {
  import opened Collections
  import opened Meta0Utils
  import opened Meta0AssignModel

  /** What the rebalancing leaves alone since `st0`. */
  ghost predicate Kept(st0: State, st: State, working: seq<Addr>) {
    && Linked(st) && SameShape(st0, st)
    && st0.treated <= st.treated && (forall p :: p in st.treated ==> p in st0.treated || p < PREFIXES)
    && forall a :: a in st0.m1 && a !in working ==>
      st.m1[a] == st0.m1[a] && HeldBy(st.table, a) == HeldBy(st0.table, a)
  }

  /** The total score is constant; each treated prefix took two points off the imbalance. */
  ghost predicate Balanced(st0: State, st: State, working: seq<Addr>, listed: seq<Addr>, avg: int) {
    && Sum(listed, st.m1, Score) == Sum(listed, st0.m1, Score)
    && Sum(working, st.m1, Gap(avg)) == Sum(working, st0.m1, Gap(avg)) - 2 * (|st.treated| - |st0.treated|)
  }

  /** Prefixes treated before `st0` keep their vector; those treated since were handed over once. */
  ghost predicate Since(st0: State, st: State, working: seq<Addr>, drained: seq<Addr>) {
    && |st.table| == |st0.table| && st0.treated <= st.treated
    && forall p: nat :: p < |st.table| ==>
      if p in st.treated && p !in st0.treated then MovedOnce(st0.table[p], st.table[p], working, drained)
      else st.table[p] == st0.table[p]
  }

  lemma MoveSince(st0: State, st: State, s: Addr, d: Addr, avg: int, working: seq<Addr>, drained: seq<Addr>)
    requires Linked(st) && CanMove(st, s, d) && Since(st0, st, working, drained) && st.m1[s].pending[0] !in st.treated
    requires HandedOver(st.table[st.m1[s].pending[0]], Move(st, s, d, avg).table[st.m1[s].pending[0]],
                        s, d, working, drained)
    ensures Since(st0, Move(st, s, d, avg), working, drained)
  {
  }

  /** The history of each prefix since `begin`, the start of the whole run. */
  ghost predicate Traced(begin: State, st0: State, st: State, working: seq<Addr>, drained: seq<Addr>) {
    && Untouched(begin, st) && Since(st0, st, working, drained)
    && (Tracked(begin, st0, working, drained) ==> Tracked(begin, st, working, drained))
  }

  /** The terms on which the rebalancing moves a prefix. */
  ghost predicate FairMove(st: State, s: Addr, d: Addr, working: seq<Addr>, avg: int) {
    && CanMove(st, s, d) && s in working && d in working
    && st.m1[d].score < avg < st.m1[s].score
    && st.m1[s].pending[0] !in st.treated
    && s in st.table[st.m1[s].pending[0]]
    && Accepts(st.table[st.m1[s].pending[0]], Some(s), d, false)
  }

  lemma MoveKept(st0: State, st: State, working: seq<Addr>, s: Addr, d: Addr, avg: int)
    requires Kept(st0, st, working) && CanMove(st, s, d) && s in working && d in working
    ensures Kept(st0, Move(st, s, d, avg), working)
  {
    var st' := Move(st, s, d, avg);
    assert st.m1[s].pending[0] < PREFIXES;
    MoveKeepsLink(st, s, d, avg);
    SameShapeTwice(st0, st, st');
    forall a | a in st0.m1 && a !in working
      ensures st'.m1[a] == st0.m1[a] && HeldBy(st'.table, a) == HeldBy(st0.table, a) {
      MoveLinksOne(st, s, d, avg, a);
    }
  }

  lemma MoveBalanced(st0: State, st: State, working: seq<Addr>, listed: seq<Addr>, s: Addr, d: Addr, avg: int)
    requires Linked(st) && FairMove(st, s, d, working, avg) && Balanced(st0, st, working, listed, avg)
    requires NoDup(working) && NoDup(listed) && forall a :: a in working ==> a in listed
    ensures Balanced(st0, Move(st, s, d, avg), working, listed, avg)
    ensures Sum(working, Move(st, s, d, avg).m1, Left) == Sum(working, st.m1, Left) - 1
  {
    MoveKeepsLink(st, s, d, avg);
    MoveConserves(st, s, d, avg, listed);
    MoveLowersImbalance(st, s, d, avg, working);
    SumShift2(working, st.m1, Move(st, s, d, avg).m1, Left, s, d);
  }

  lemma MoveTraced(begin: State, st0: State, st: State, working: seq<Addr>, drained: seq<Addr>,
                   s: Addr, d: Addr, avg: int)
    requires Linked(st) && FairMove(st, s, d, working, avg) && Traced(begin, st0, st, working, drained)
    ensures Traced(begin, st0, Move(st, s, d, avg), working, drained)
  {
    UnforcedIsForced(st.table[st.m1[s].pending[0]], Some(s), d);
    MoveTracks(begin, st, s, d, avg, working, drained);
    MoveSince(st0, st, s, d, avg, working, drained);
  }

  /** Only the pending list and the flag of `s` changed. */
  ghost predicate OnlySource(st: State, st': State, s: Addr) {
    && st'.table == st.table && st'.treated == st.treated && st'.m1.Keys == st.m1.Keys
    && (forall a :: a in st.m1 && a != s ==> st'.m1[a] == st.m1[a])
    && (s in st.m1 ==> st'.m1[s].score == st.m1[s].score && st'.m1[s].used == st.m1[s].used)
  }

  lemma SourceKept(st0: State, st: State, st': State, working: seq<Addr>, s: Addr)
    requires Kept(st0, st, working) && OnlySource(st, st', s) && s in working && Linked(st')
    ensures Kept(st0, st', working)
  {
  }

  lemma SourceBalanced(st0: State, st: State, st': State, working: seq<Addr>, listed: seq<Addr>, s: Addr, avg: int)
    requires OnlySource(st, st', s) && Balanced(st0, st, working, listed, avg)
    requires s in working && s in st.m1 && NoDup(working) && NoDup(listed)
    ensures Balanced(st0, st', working, listed, avg)
    ensures Sum(working, st'.m1, Left) ==
            Sum(working, st.m1, Left) - (|st.m1[s].pending| - |st'.m1[s].pending|)
  {
    SumShift(working, st.m1, st'.m1, Left, s);
    SumShift(working, st.m1, st'.m1, Gap(avg), s);
    SumShift(listed, st.m1, st'.m1, Score, s);
  }

  /** The search for a source: the services above the average are asked in turn. */
  function Scan(st: State, lst: seq<Addr>, avg: int): (State, Option<Addr>)
    requires forall a :: a in lst ==> a in st.m1
    decreases |lst|
  {
    if lst == [] || st.m1[lst[0]].score <= avg then
      (st, None)
    else
      var st' := Probe(st, lst[0]);
      if st'.m1[lst[0]].available then (st', Some(lst[0])) else Scan(st', lst[1..], avg)
  }

  ghost predicate IsSource(st: State, s: Addr, avg: int) {
    && s in st.m1 && st.m1[s].available && st.m1[s].score > avg
    && st.m1[s].pending != [] && st.m1[s].pending[0] !in st.treated
  }

  /** The search only spends pending prefixes: no score, no flag of use, no slot changes. */
  ghost predicate OnlySearched(st: State, st': State) {
    && st'.table == st.table && st'.treated == st.treated && st'.m1.Keys == st.m1.Keys
    && forall a :: a in st.m1 ==>
      && st'.m1[a].score == st.m1[a].score
      && (st'.m1[a].available ==> st.m1[a].available)
  }

  lemma {:induction false} ScanSearches(st: State, lst: seq<Addr>, avg: int)
    requires forall a :: a in lst ==> a in st.m1
    ensures var (st', src) := Scan(st, lst, avg);
            && OnlySearched(st, st')
            && (src.Some? ==> IsSource(st', src.value, avg) && src.value in lst)
    decreases |lst|
  {
    if lst == [] || st.m1[lst[0]].score <= avg {
    } else {
      assert lst[0] in lst;
      ScanSearches(Probe(st, lst[0]), lst[1..], avg);
    }
  }

  /** An available service above the average with a prefix left to move. */
  ghost predicate HasWork(st: State, a: Addr, avg: int) {
    a in st.m1 && st.m1[a].available && st.m1[a].score > avg && exists p :: p in st.m1[a].pending && p !in st.treated
  }

  /** `src` is the first service of the list with a prefix left to move. */
  ghost predicate FirstWithWork(st: State, lst: seq<Addr>, avg: int, src: Option<Addr>) {
    match src
    case None => forall i :: 0 <= i < |lst| ==> !HasWork(st, lst[i], avg)
    case Some(s) =>
      exists i :: 0 <= i < |lst| && lst[i] == s && HasWork(st, s, avg) && NoneBefore(st, lst, avg, i)
  }

  ghost predicate NoneBefore(st: State, lst: seq<Addr>, avg: int, i: nat)
    requires i <= |lst|
  {
    forall j :: 0 <= j < i ==> !HasWork(st, lst[j], avg)
  }

  lemma ProbeWork(st: State, x: Addr, a: Addr, avg: int)
    requires x in st.m1
    ensures HasWork(Probe(st, x), a, avg) <==> HasWork(st, a, avg)
    ensures st.m1[x].score > avg ==> (Probe(st, x).m1[x].available <==> HasWork(st, x, avg))
  {
    var r := SkipTreated(st.m1[x].pending, st.treated);
    assert r != [] ==> r[0] in r && r[0] !in st.treated;
    assert forall p :: p in r ==> p in multiset(r);
    assert forall p :: p in st.m1[x].pending <==> p in multiset(st.m1[x].pending);
  }

  /** The search of a source finds the highest-scored one, and the first of them in the list. */
  lemma {:induction false} ScanFindsFirst(st: State, lst: seq<Addr>, avg: int)
    requires ByScore(lst, st.m1)
    ensures FirstWithWork(st, lst, avg, Scan(st, lst, avg).1)
    decreases |lst|
  {
    if lst == [] || st.m1[lst[0]].score <= avg {
    } else {
      var st' := Probe(st, lst[0]);
      ProbeWork(st, lst[0], lst[0], avg);
      if !HasWork(st, lst[0], avg) {
        TailByScore(lst, st.m1);
        SameOrder(lst[1..], st.m1, st'.m1);
        ScanFindsFirst(st', lst[1..], avg);
        forall a ensures HasWork(st', a, avg) <==> HasWork(st, a, avg) {
          ProbeWork(st, lst[0], a, avg);
        }
        FirstLater(st, st', lst, avg, Scan(st', lst[1..], avg).1);
      }
    }
  }

  lemma FirstLater(st: State, st': State, lst: seq<Addr>, avg: int, src: Option<Addr>)
    requires lst != [] && !HasWork(st, lst[0], avg) && forall a :: HasWork(st', a, avg) <==> HasWork(st, a, avg)
    requires FirstWithWork(st', lst[1..], avg, src)
    ensures FirstWithWork(st, lst, avg, src)
  {
    if src.Some? {
      var i :| 0 <= i < |lst[1..]| && lst[1..][i] == src.value && HasWork(st', src.value, avg) &&
               NoneBefore(st', lst[1..], avg, i);
      assert lst[i + 1] == src.value;
      assert NoneBefore(st, lst, avg, i + 1) by {
        forall j | 0 <= j < i + 1 ensures !HasWork(st, lst[j], avg) {
          assert j > 0 ==> lst[j] == lst[1..][j - 1];
        }
      }
    } else {
      forall i | 0 <= i < |lst| ensures !HasWork(st, lst[i], avg) {
        assert i > 0 ==> lst[i] == lst[1..][i - 1];
      }
    }
  }

  lemma {:induction false} ScanMisses(st: State, lst: seq<Addr>, avg: int)
    requires ByScore(lst, st.m1) && Scan(st, lst, avg).1.None?
    ensures forall a :: a in lst && st.m1[a].score > avg ==>
      a in Scan(st, lst, avg).0.m1 && !Scan(st, lst, avg).0.m1[a].available
    decreases |lst|
  {
    if lst == [] {
    } else {
      TailByScore(lst, st.m1);
      assert lst == [lst[0]] + lst[1..];
      if st.m1[lst[0]].score > avg {
        var st' := Probe(st, lst[0]);
        SameOrder(lst[1..], st.m1, st'.m1);
        ScanSearches(st', lst[1..], avg);
        ScanMisses(st', lst[1..], avg);
      }
    }
  }

  lemma SameOrder(lst: seq<Addr>, m: map<Addr, Meta1>, m': map<Addr, Meta1>)
    requires ByScore(lst, m) && m'.Keys == m.Keys && forall a :: a in m ==> m'[a].score == m[a].score
    ensures ByScore(lst, m')
  {
  }

  lemma {:induction false} ScanKept(st0: State, st: State, lst: seq<Addr>, working: seq<Addr>, avg: int,
                                    sources: set<Addr>)
    requires Kept(st0, st, working) && Settled(st, working, avg, sources)
    requires forall a :: a in lst ==> a in st.m1 && a in working
    ensures Kept(st0, Scan(st, lst, avg).0, working) && Settled(Scan(st, lst, avg).0, working, avg, sources)
    decreases |lst|
  {
    if lst == [] || st.m1[lst[0]].score <= avg {
    } else {
      var st' := Probe(st, lst[0]);
      assert lst[0] in lst;
      ProbeKeepsLink(st, lst[0]);
      ProbeSettles(st, lst[0], avg, working, sources);
      SourceKept(st0, st, st', working, lst[0]);
      ScanKept(st0, st', lst[1..], working, avg, sources);
    }
  }

  lemma {:induction false} ScanBalanced(st0: State, st: State, lst: seq<Addr>, working: seq<Addr>,
                                        listed: seq<Addr>, avg: int)
    requires Balanced(st0, st, working, listed, avg) && NoDup(working) && NoDup(listed)
    requires forall a :: a in lst ==> a in st.m1 && a in working
    ensures Balanced(st0, Scan(st, lst, avg).0, working, listed, avg)
    ensures Sum(working, Scan(st, lst, avg).0.m1, Left) <= Sum(working, st.m1, Left)
    decreases |lst|
  {
    if lst == [] || st.m1[lst[0]].score <= avg {
    } else {
      var st' := Probe(st, lst[0]);
      assert lst[0] in lst;
      SourceBalanced(st0, st, st', working, listed, lst[0], avg);
      ScanBalanced(st0, st', lst[1..], working, listed, avg);
    }
  }

  /** One turn: a search, then a move to `dest`, or the end of the first prefix when there is none. */
  ghost predicate TurnOf(st: State, st': State, lst: seq<Addr>, working: seq<Addr>, avg: int,
                         src: Option<Addr>, dest: Option<Addr>)
    requires forall a :: a in lst ==> a in st.m1
  {
    var (st1, found) := Scan(st, lst, avg);
    && found == src
    && match (src, dest)
       case (None, _) => st' == st1
       case (Some(s), Some(d)) => FairMove(st1, s, d, working, avg) && st' == Move(st1, s, d, avg)
       case (Some(s), None) =>
         && s in st1.m1 && st1.m1[s].pending != [] && st1.m1[s].pending[0] < |st1.table|
         && NoTaker(st1, working, avg, s, st1.m1[s].pending[0]) && st' == Drop(st1, s)
  }

  lemma TurnKept(st0: State, st: State, st': State, lst: seq<Addr>, working: seq<Addr>, avg: int,
                 sources: set<Addr>, src: Option<Addr>, dest: Option<Addr>)
    requires Kept(st0, st, working) && Settled(st, working, avg, sources)
    requires forall a :: a in lst ==> a in st.m1 && a in working
    requires TurnOf(st, st', lst, working, avg, src, dest)
    ensures Kept(st0, st', working) && Settled(st', working, avg, sources)
  {
    var st1 := Scan(st, lst, avg).0;
    ScanKept(st0, st, lst, working, avg, sources);
    if src.Some? {
      ScanSearches(st, lst, avg);
      if dest.Some? {
        MoveKept(st0, st1, working, src.value, dest.value, avg);
        MoveSettles(st1, src.value, dest.value, avg, working, sources);
      } else {
        DropKeepsLink(st1, src.value);
        DropSettles(st1, src.value, avg, working, sources);
        SourceKept(st0, st1, st', working, src.value);
      }
    }
  }

  lemma TurnBalanced(st0: State, st: State, st': State, lst: seq<Addr>, working: seq<Addr>, listed: seq<Addr>,
                     avg: int, src: Option<Addr>, dest: Option<Addr>)
    requires Balanced(st0, st, working, listed, avg)
    requires NoDup(working) && NoDup(listed) && forall a :: a in working ==> a in listed
    requires (forall a :: a in lst ==> a in st.m1 && a in working) && Linked(Scan(st, lst, avg).0)
    requires TurnOf(st, st', lst, working, avg, src, dest)
    ensures Balanced(st0, st', working, listed, avg)
    ensures Sum(working, st'.m1, Left) <= Sum(working, st.m1, Left) - if src.Some? then 1 else 0
  {
    var st1 := Scan(st, lst, avg).0;
    ScanBalanced(st0, st, lst, working, listed, avg);
    if src.Some? {
      ScanSearches(st, lst, avg);
      if dest.Some? {
        MoveBalanced(st0, st1, working, listed, src.value, dest.value, avg);
      } else {
        SourceBalanced(st0, st1, st', working, listed, src.value, avg);
      }
    }
  }

  lemma SameTraced(begin: State, st0: State, st: State, st': State, working: seq<Addr>, drained: seq<Addr>)
    requires Traced(begin, st0, st, working, drained) && st'.table == st.table && st'.treated == st.treated
    ensures Traced(begin, st0, st', working, drained)
  {
  }

  lemma TurnTraced(begin: State, st0: State, st: State, st': State, lst: seq<Addr>, working: seq<Addr>,
                   drained: seq<Addr>, avg: int, src: Option<Addr>, dest: Option<Addr>)
    requires Traced(begin, st0, st, working, drained)
    requires (forall a :: a in lst ==> a in st.m1 && a in working) && Linked(Scan(st, lst, avg).0)
    requires TurnOf(st, st', lst, working, avg, src, dest)
    ensures Traced(begin, st0, st', working, drained)
    ensures |st'.treated| == |st.treated| + if src.Some? && dest.Some? then 1 else 0
  {
    var st1 := Scan(st, lst, avg).0;
    ScanSearches(st, lst, avg);
    SameTraced(begin, st0, st, st1, working, drained);
    if src.Some? && dest.Some? {
      MoveTraced(begin, st0, st1, working, drained, src.value, dest.value, avg);
    } else {
      SameTraced(begin, st0, st1, st', working, drained);
    }
  }

  /** Once no overloaded service is available any more, nothing more could be moved. */
  lemma NothingLeft(st0: State, st: State, lst: seq<Addr>, working: seq<Addr>, avg: int, sources: set<Addr>)
    requires ByScore(lst, st0.m1) && Scan(st0, lst, avg) == (st, None)
    requires Settled(st, working, avg, sources) && forall a :: a in sources ==> a in lst
    ensures Exhausted(st, working, avg, sources)
  {
    ScanSearches(st0, lst, avg);
    ScanMisses(st0, lst, avg);
    forall a, p | a in sources && a in st.m1 && st.m1[a].score > avg && p in HeldBy(st.table, a) && p !in st.treated
      ensures NoTaker(st, working, avg, a, p) {
      assert SettledOne(st, working, avg, a);
    }
  }

  /** The invariant of the rebalancing loop. */
  ghost predicate InRun(begin: State, st0: State, st: State, working: seq<Addr>, drained: seq<Addr>,
                        listed: seq<Addr>, avg: int, sources: set<Addr>)
  {
    && Kept(st0, st, working) && Settled(st, working, avg, sources)
    && Balanced(st0, st, working, listed, avg)
    && Traced(begin, st0, st, working, drained)
  }

  lemma TurnInRun(begin: State, st0: State, st: State, st': State, lst: seq<Addr>, working: seq<Addr>,
                  drained: seq<Addr>, listed: seq<Addr>, avg: int, sources: set<Addr>,
                  src: Option<Addr>, dest: Option<Addr>)
    requires InRun(begin, st0, st, working, drained, listed, avg, sources)
    requires NoDup(working) && NoDup(listed) && forall a :: a in working ==> a in listed
    requires ByScore(lst, st.m1) && (forall a :: a in lst <==> a in working) && forall a :: a in sources ==> a in lst
    requires TurnOf(st, st', lst, working, avg, src, dest)
    ensures InRun(begin, st0, st', working, drained, listed, avg, sources)
    ensures Sum(working, st'.m1, Left) <= Sum(working, st.m1, Left) - if src.Some? then 1 else 0
    ensures |st'.treated| == |st.treated| + if src.Some? && dest.Some? then 1 else 0
    ensures src.None? ==> Exhausted(st', working, avg, sources)
  {
    assert Linked(Scan(st, lst, avg).0) by {
      ScanKept(st0, st, lst, working, avg, sources);
    }
    TurnKept(st0, st, st', lst, working, avg, sources, src, dest);
    TurnBalanced(st0, st, st', lst, working, listed, avg, src, dest);
    TurnTraced(begin, st0, st, st', lst, working, drained, avg, src, dest);
    if src.None? {
      NothingLeft(st, st', lst, working, avg, sources);
    }
  }
}
