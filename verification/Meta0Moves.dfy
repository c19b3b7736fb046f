/**
 The choices of `_assign` (meta0v2/meta0_prefixassign.c) as functions of the state, and how many
 moves its rebalancing would make if nothing stopped it.
 */
module Meta0Moves {
  import opened Collections
  import opened Meta0Utils
  import opened Meta0AssignModel
  import opened Meta0Drain
  import opened Meta0Rebalance

  // ----- the choice of a destination

  /** The first acceptable service among the first `k` of the list, tried from the end. */
  function Pick(v: seq<Addr>, lst: seq<Addr>, k: nat, m1: map<Addr, Meta1>, src: Option<Addr>,
                avg: int, unref: bool, force: bool): Option<Addr>
    requires k <= |lst| && forall a :: a in lst ==> a in m1
  {
    if k == 0 || (m1[lst[k - 1]].score >= avg && !unref) then None
    else if Accepts(v, src, lst[k - 1], force) then Some(lst[k - 1])
    else Pick(v, lst, k - 1, m1, src, avg, unref, force)
  }

  /** `d` is the last service of the list that the vector accepts. */
  ghost predicate LastAccepted(v: seq<Addr>, lst: seq<Addr>, src: Option<Addr>, d: Addr, force: bool) {
    exists i :: 0 <= i < |lst| && lst[i] == d && Accepts(v, src, d, force) &&
      forall j :: i < j < |lst| ==> !Accepts(v, src, lst[j], force)
  }

  lemma {:induction false} PickFits(v: seq<Addr>, lst: seq<Addr>, k: nat, m1: map<Addr, Meta1>, src: Option<Addr>,
                                    avg: int, unref: bool, force: bool)
    requires k <= |lst| && forall a :: a in lst ==> a in m1
    ensures var d := Pick(v, lst, k, m1, src, avg, unref, force);
            d.Some? ==> d.value in lst && Accepts(v, src, d.value, force) && (unref || m1[d.value].score < avg)
    ensures (unref || ByScore(lst, m1)) && Pick(v, lst, k, m1, src, avg, unref, force).None? ==>
      forall i :: 0 <= i < k && (unref || m1[lst[i]].score < avg) ==> !Accepts(v, src, lst[i], force)
  {
    if k == 0 {
    } else {
      assert lst[k - 1] in lst;
      PickFits(v, lst, k - 1, m1, src, avg, unref, force);
    }
  }

  // ----- the drain

  lemma HeadIsHeld(st: State, s: Addr)
    requires Linked(st) && s in st.m1 && st.m1[s].pending != []
    ensures var p := st.m1[s].pending[0]; p < |st.table| && s in st.table[p] && NoDup(st.table[p])
  {
    assert LinkedOne(st.table, s, st.m1[s]);
    assert st.m1[s].pending[0] in HeldBy(st.table, s);
  }

  /** The service that takes the place of `u`: without force if one does, else by force. */
  function Taker(v: seq<Addr>, working: seq<Addr>, m1: map<Addr, Meta1>, u: Addr, avg: int): Option<Addr>
    requires forall a :: a in working ==> a in m1
  {
    var d := Pick(v, working, |working|, m1, Some(u), avg, true, false);
    if d.Some? then d else Pick(v, working, |working|, m1, Some(u), avg, true, true)
  }

  lemma TakerFits(v: seq<Addr>, working: seq<Addr>, m1: map<Addr, Meta1>, u: Addr, avg: int)
    requires NoDup(v) && u in v && u !in working && forall a :: a in working ==> a in m1
    ensures Taker(v, working, m1, u, avg).Some? <==> HasTaker(v, working, u)
    ensures var d := Taker(v, working, m1, u, avg);
            d.Some? ==>
              && d.value in working && d.value !in v
              && forall drained :: u in drained ==>
                HandedOver(v, ReplaceFirst(v, u, d.value), u, d.value, working, drained)
  {
    PickFits(v, working, |working|, m1, Some(u), avg, true, false);
    PickFits(v, working, |working|, m1, Some(u), avg, true, true);
    var d := Taker(v, working, m1, u, avg);
    if d.Some? {
      if Accepts(v, Some(u), d.value, false) {
        UnforcedIsForced(v, Some(u), d.value);
      }
      ForcedAcceptance(v, u, d.value);
    }
  }

  /** The state once all pending prefixes of `u` have been handed over, if they all can be. */
  ghost function DrainRun(st: State, working: seq<Addr>, u: Addr, avg: int): (r: Option<State>)
    requires Linked(st) && u in st.m1 && u !in working && forall a :: a in working ==> a in st.m1
    ensures r.Some? ==> Linked(r.value) && r.value.m1.Keys == st.m1.Keys
    decreases |st.m1[u].pending|
  {
    if st.m1[u].pending == [] then Some(st)
    else
      HeadIsHeld(st, u);
      var v := st.table[st.m1[u].pending[0]];
      TakerFits(v, working, st.m1, u, avg);
      var d := Taker(v, working, st.m1, u, avg);
      if d.None? then None
      else
        MoveKeepsLink(st, u, d.value, avg);
        DrainRun(Move(st, u, d.value, avg), working, u, avg)
  }

  /** The first `k` pending prefixes of `u` have been handed over since `st0`, and the rest is still to come. */
  ghost predicate InDrain(begin: State, st0: State, st: State, working: seq<Addr>, drained: seq<Addr>,
                          listed: seq<Addr>, u: Addr, k: nat, avg: int)
  {
    && Linked(st0) && u in st0.m1 && u !in working && (forall a :: a in working ==> a in st0.m1)
    && Drained(begin, st0, st, working, drained, listed, u, k)
    && TakersFor(st0.table, working, u, Elements(st0.m1[u].pending[..k]))
    && DrainRun(st, working, u, avg) == DrainRun(st0, working, u, avg)
  }

  lemma DrainBegins(begin: State, st: State, working: seq<Addr>, drained: seq<Addr>, listed: seq<Addr>,
                    u: Addr, avg: int)
    requires Linked(st) && u in st.m1 && u !in working && Complete(st, [u]) && Untouched(begin, st)
    requires forall a :: a in working ==> a in st.m1
    ensures InDrain(begin, st, st, working, drained, listed, u, 0, avg)
  {
    var todo := st.m1[u].pending;
    assert LinkedOne(st.table, u, st.m1[u]);
    assert todo[0..] == todo && todo[..0] == [] && u in [u];
  }

  /** One hand-over more. */
  lemma DrainGoesOn(begin: State, st0: State, st: State, working: seq<Addr>, drained: seq<Addr>, listed: seq<Addr>,
                    u: Addr, k: nat, d: Addr, avg: int)
    requires InDrain(begin, st0, st, working, drained, listed, u, k, avg) && st.m1[u].pending != []
    requires NoDup(listed) && u in listed && u in drained && forall a :: a in working ==> a in listed
    requires st.m1[u].pending[0] < |st.table| && Taker(st.table[st.m1[u].pending[0]], working, st.m1, u, avg) == Some(d)
    ensures d in working && CanMove(st, u, d)
    ensures InDrain(begin, st0, Move(st, u, d, avg), working, drained, listed, u, k + 1, avg)
    ensures |Move(st, u, d, avg).m1[u].pending| == |st.m1[u].pending| - 1
  {
    assert LinkedOne(st0.table, u, st0.m1[u]);
    HeadIsHeld(st, u);
    TakerFits(st.table[st.m1[u].pending[0]], working, st.m1, u, avg);
    DrainHead(st0, st, working, u, k);
    DrainTurn(begin, st0, st, working, drained, listed, u, k, d, avg);
  }

  /** Where nobody takes the next prefix, the service cannot be drained. */
  lemma DrainStuck(begin: State, st0: State, st: State, working: seq<Addr>, drained: seq<Addr>, listed: seq<Addr>,
                   u: Addr, k: nat, avg: int)
    requires InDrain(begin, st0, st, working, drained, listed, u, k, avg) && st.m1[u].pending != []
    requires st.m1[u].pending[0] < |st.table| && !HasTaker(st.table[st.m1[u].pending[0]], working, u)
    ensures !Drainable(st0, working, u)
  {
    assert LinkedOne(st0.table, u, st0.m1[u]);
    DrainHead(st0, st, working, u, k);
  }

  /** The state once the services of `unref` from the `i`-th on have been drained in turn. */
  ghost function DrainAll(st: State, working: seq<Addr>, unref: seq<Addr>, i: nat, avg: int): (r: Option<State>)
    requires Linked(st) && i <= |unref|
    requires (forall a :: a in unref ==> a in st.m1 && a !in working) && forall a :: a in working ==> a in st.m1
    ensures r.Some? ==> Linked(r.value) && r.value.m1.Keys == st.m1.Keys
    decreases |unref| - i
  {
    if i == |unref| then Some(st)
    else
      var next := DrainRun(st, working, unref[i], avg);
      if next.None? then None else DrainAll(next.value, working, unref, i + 1, avg)
  }

  // ----- one turn of the rebalancing

  /** A list in any order of the working services, in a linked state. */
  ghost predicate Runnable(st: State, lst: seq<Addr>, working: seq<Addr>) {
    && Linked(st) && NoDup(working) && (forall a :: a in working ==> a in st.m1)
    && forall a :: a in lst <==> a in working
  }

  lemma ScanRunnable(st: State, lst: seq<Addr>, working: seq<Addr>, avg: int)
    requires Runnable(st, lst, working)
    ensures Linked(Scan(st, lst, avg).0)
  {
    ScanKept(st, st, lst, working, avg, {});
  }

  /** What a turn does: the state after it, the source found, the destination chosen. */
  ghost function TurnResult(st: State, lst: seq<Addr>, working: seq<Addr>, avg: int):
    (r: (State, Option<Addr>, Option<Addr>))
    requires Runnable(st, lst, working) && ByScore(lst, st.m1)
    ensures TurnOf(st, r.0, lst, working, avg, r.1, r.2)
  {
    ScanSearches(st, lst, avg);
    ScanRunnable(st, lst, working, avg);
    var (st1, src) := Scan(st, lst, avg);
    if src.None? then (st1, None, None)
    else
      var s := src.value;
      HeadIsHeld(st1, s);
      SameOrder(lst, st.m1, st1.m1);
      var v := st1.table[st1.m1[s].pending[0]];
      PickFits(v, lst, |lst|, st1.m1, src, avg, false, false);
      var dest := Pick(v, lst, |lst|, st1.m1, src, avg, false, false);
      if dest.Some? then
        UnforcedIsForced(v, src, dest.value);
        ForcedAcceptance(v, s, dest.value);
        (Move(st1, s, dest.value, avg), src, dest)
      else
        (Drop(st1, s), src, None)
  }

  /** A turn leaves a state to go on from, with fewer pending prefixes when it found a source. */
  lemma TurnGoesOn(st: State, lst: seq<Addr>, working: seq<Addr>, avg: int)
    requires Runnable(st, lst, working) && ByScore(lst, st.m1)
    ensures var (st', src, dest) := TurnResult(st, lst, working, avg);
            && Runnable(st', lst, working)
            && Sum(working, st'.m1, Left) <= Sum(working, st.m1, Left) - if src.Some? then 1 else 0
  {
    var (st', src, dest) := TurnResult(st, lst, working, avg);
    ScanRunnable(st, lst, working, avg);
    TurnKept(st, st, st', lst, working, avg, {}, src, dest);
    TurnBalanced(st, st, st', lst, working, working, avg, src, dest);
  }

  // ----- the rebalancing without a limit

  /** How many moves the rebalancing makes from here if only the lack of a source stops it. */
  ghost function Moves(st: State, lst: seq<Addr>, working: seq<Addr>, avg: int): nat
    requires Runnable(st, lst, working)
    decreases Sum(working, st.m1, Left)
  {
    var l := SortByScore(lst, st.m1);
    var (st', src, dest) := TurnResult(st, l, working, avg);
    if src.None? then 0
    else
      TurnGoesOn(st, l, working, avg);
      LeftIsNat(working, st'.m1);
      (if dest.Some? then 1 else 0) + Moves(st', l, working, avg)
  }

  /** Only the services available at the start of the run still are. */
  ghost predicate OnlySources(st: State, working: seq<Addr>, sources: set<Addr>) {
    forall a :: a in working && a in st.m1 && st.m1[a].available ==> a in sources
  }

  lemma TurnOnlySources(st: State, lst: seq<Addr>, working: seq<Addr>, avg: int, sources: set<Addr>)
    requires Runnable(st, lst, working) && ByScore(lst, st.m1) && OnlySources(st, working, sources)
    ensures OnlySources(TurnResult(st, lst, working, avg).0, working, sources)
  {
    ScanSearches(st, lst, avg);
  }

  /** A turn that moves nothing changes neither table nor treated prefixes nor scores. */
  lemma TurnWithoutMove(st: State, lst: seq<Addr>, working: seq<Addr>, avg: int, sources: set<Addr>)
    requires Runnable(st, lst, working) && ByScore(lst, st.m1)
    requires TurnResult(st, lst, working, avg).2.None?
    ensures Exhausted(TurnResult(st, lst, working, avg).0, working, avg, sources) <==>
      Exhausted(st, working, avg, sources)
  {
    ScanSearches(st, lst, avg);
    var st' := TurnResult(st, lst, working, avg).0;
    assert st'.table == st.table && st'.treated == st.treated && st'.m1.Keys == st.m1.Keys;
    assert forall a :: a in st.m1 ==> st'.m1[a].score == st.m1[a].score;
    forall a, p: nat | p < |st.table| ensures NoTaker(st', working, avg, a, p) <==> NoTaker(st, working, avg, a, p) {
    }
  }

  /** A turn that moves a prefix shows that something could be moved. */
  lemma TurnWithMove(st: State, lst: seq<Addr>, working: seq<Addr>, avg: int, sources: set<Addr>)
    requires Runnable(st, lst, working) && ByScore(lst, st.m1) && OnlySources(st, working, sources)
    requires TurnResult(st, lst, working, avg).2.Some?
    ensures !Exhausted(st, working, avg, sources)
  {
    ScanSearches(st, lst, avg);
    ScanRunnable(st, lst, working, avg);
    var (st1, src) := Scan(st, lst, avg);
    var s, d := src.value, TurnResult(st, lst, working, avg).2.value;
    HeadIsHeld(st1, s);
    var p := st1.m1[s].pending[0];
    assert s in sources && FairMove(st1, s, d, working, avg);
    assert p in HeldBy(st.table, s) && !NoTaker(st, working, avg, s, p);
  }

  /** Nothing could be moved any more iff the rebalancing would make no further move. */
  lemma {:induction false} ExhaustedIffNoMove(st: State, lst: seq<Addr>, working: seq<Addr>, avg: int,
                                              sources: set<Addr>)
    requires Runnable(st, lst, working) && Settled(st, working, avg, sources)
    requires OnlySources(st, working, sources) && forall a :: a in sources ==> a in working
    ensures Exhausted(st, working, avg, sources) <==> Moves(st, lst, working, avg) == 0
    decreases Sum(working, st.m1, Left)
  {
    var l := SortByScore(lst, st.m1);
    var (st', src, dest) := TurnResult(st, l, working, avg);
    if dest.Some? {
      TurnWithMove(st, l, working, avg, sources);
    } else {
      TurnWithoutMove(st, l, working, avg, sources);
      TurnKept(st, st, st', l, working, avg, sources, src, dest);
      if src.None? {
        NothingLeft(st, st', l, working, avg, sources);
      } else {
        TurnGoesOn(st, l, working, avg);
        LeftIsNat(working, st'.m1);
        TurnOnlySources(st, l, working, avg, sources);
        ExhaustedIffNoMove(st', l, working, avg, sources);
      }
    }
  }

  /** No prefix is moved twice, so there are never more moves than untreated prefixes. */
  lemma {:induction false} MovesBounded(st: State, lst: seq<Addr>, working: seq<Addr>, avg: int)
    requires Runnable(st, lst, working) && forall p :: p in st.treated ==> p < PREFIXES
    ensures |st.treated| + Moves(st, lst, working, avg) <= PREFIXES
    decreases Sum(working, st.m1, Left)
  {
    var l := SortByScore(lst, st.m1);
    var (st', src, dest) := TurnResult(st, l, working, avg);
    if src.None? {
      BoundedSize(st.treated, PREFIXES);
    } else {
      ScanRunnable(st, l, working, avg);
      TurnGoesOn(st, l, working, avg);
      LeftIsNat(working, st'.m1);
      TurnKept(st, st, st', l, working, avg, {}, src, dest);
      TurnTraced(st, st, st, st', l, working, [], avg, src, dest);
      MovesBounded(st', l, working, avg);
    }
  }

  /** `end` was reached from `st` by `n` moves and any number of searches and prefixes given up. */
  ghost predicate Reached(st: State, end: State, working: seq<Addr>, n: nat) {
    && end.m1.Keys == st.m1.Keys && |end.table| == |st.table|
    && st.treated <= end.treated && |end.treated| == |st.treated| + n
    && (forall p: nat :: p < |st.table| && p !in end.treated ==> end.table[p] == st.table[p])
    && forall a :: a in working && a in st.m1 ==> st.m1[a].score - n <= end.m1[a].score <= st.m1[a].score + n
  }

  lemma MoveReached(st: State, s: Addr, d: Addr, avg: int, working: seq<Addr>)
    requires Linked(st) && CanMove(st, s, d) && st.m1[s].pending[0] !in st.treated
    ensures Reached(st, Move(st, s, d, avg), working, 1)
  {
    MoveKeepsLink(st, s, d, avg);
  }

  lemma TurnReached(st: State, lst: seq<Addr>, working: seq<Addr>, avg: int)
    requires Runnable(st, lst, working) && ByScore(lst, st.m1)
    ensures var (st', src, dest) := TurnResult(st, lst, working, avg);
            Reached(st, st', working, if src.Some? && dest.Some? then 1 else 0)
  {
    var (st', src, dest) := TurnResult(st, lst, working, avg);
    ScanSearches(st, lst, avg);
    ScanRunnable(st, lst, working, avg);
    var st1 := Scan(st, lst, avg).0;
    assert Reached(st, st1, working, 0);
    if src.Some? && dest.Some? {
      MoveReached(st1, src.value, dest.value, avg, working);
      ReachedTwice(st, st1, st', working, 0, 1);
    }
  }

  lemma ReachedTwice(st: State, mid: State, end: State, working: seq<Addr>, n: nat, k: nat)
    requires Reached(st, mid, working, n) && Reached(mid, end, working, k)
    ensures Reached(st, end, working, n + k)
  {
  }

  /** The end of the rebalancing that nothing stops: nothing could be moved any more. */
  lemma {:induction false} RunsOut(st: State, lst: seq<Addr>, working: seq<Addr>, avg: int, sources: set<Addr>)
    returns (end: State)
    requires Runnable(st, lst, working) && Settled(st, working, avg, sources)
    requires forall a :: a in sources ==> a in working
    ensures Reached(st, end, working, Moves(st, lst, working, avg)) && Exhausted(end, working, avg, sources)
    decreases Sum(working, st.m1, Left)
  {
    var l := SortByScore(lst, st.m1);
    var (st', src, dest) := TurnResult(st, l, working, avg);
    TurnReached(st, l, working, avg);
    TurnKept(st, st, st', l, working, avg, sources, src, dest);
    if src.None? {
      NothingLeft(st, st', l, working, avg, sources);
      end := st';
    } else {
      TurnGoesOn(st, l, working, avg);
      LeftIsNat(working, st'.m1);
      end := RunsOut(st', l, working, avg, sources);
      ReachedTwice(st, st', end, working, if dest.Some? then 1 else 0, Moves(st', l, working, avg));
    }
  }

  // ----- when the counter stops the rebalancing

  /**
   The rebalancing ends after the turn at which `nb`, the count of prefixes it was given plus the moves
   made, is 65536. It then leaves moves undone iff more were to come, or iff it was given exactly 65536
   and its first turn gives a prefix up.
   */
  ghost predicate Short(st: State, working: seq<Addr>, nb: nat, avg: int)
    requires Runnable(st, working, working)
  {
    var moves := Moves(st, working, working, avg);
    || (nb < PREFIXES && moves > PREFIXES - nb)
    || (nb == PREFIXES && moves > 0 && TurnResult(st, SortByScore(working, st.m1), working, avg).2.None?)
  }

  /** With a right count nothing is left undone. */
  lemma RightCountIsEnough(st: State, working: seq<Addr>, nb: nat, avg: int)
    requires Runnable(st, working, working) && forall p :: p in st.treated ==> p < PREFIXES
    requires nb == |st.treated|
    ensures !Short(st, working, nb, avg)
  {
    MovesBounded(st, working, working, avg);
  }

  /** Whether a run from `begin` stops with moves left: drained first, counting every hand-over. */
  ghost predicate StopsShort(begin: State, working: seq<Addr>, unref: seq<Addr>, avg: int)
    requires Linked(begin) && NoDup(working) && (forall a :: a in working ==> a in begin.m1)
    requires forall a :: a in unref ==> a in begin.m1 && a !in working
  {
    var drained := DrainAll(begin, working, unref, 0, avg);
    drained.Some? && Short(drained.value, working, HandOvers(begin, unref, |unref|), avg)
  }

  /** A treated prefix has lost a drained service, or was handed over once. */
  lemma TreatedIsChanged(begin: State, st: State, end: State, working: seq<Addr>, unref: seq<Addr>, p: nat)
    requires Linked(begin) && (forall a :: a in unref ==> a in begin.m1) && Untouched(begin, st)
    requires st.treated == PendingOf(begin, unref, |unref|) && Since(st, end, working, unref)
    requires forall u :: u in unref ==> HeldBy(end.table, u) == {}
    requires p in end.treated && p < |end.table|
    ensures p < |begin.table| && end.table[p] != begin.table[p]
  {
    if p in st.treated {
      PendingAtOne(begin, unref, |unref|, p);
      var j :| 0 <= j < |unref| && p in begin.m1[unref[j]].pending;
      assert unref[j] in unref && LinkedOne(begin.table, unref[j], begin.m1[unref[j]]);
      assert p in HeldBy(begin.table, unref[j]) && p !in HeldBy(end.table, unref[j]);
    } else {
      var s, d :| HandedOver(st.table[p], end.table[p], s, d, working, unref);
      ReplaceFirstMembers(st.table[p], s, d);
    }
  }

  /** What drain and rebalancing together have done. */
  lemma AssignEnds(begin: State, st: State, end: State, working: seq<Addr>, unref: seq<Addr>, listed: seq<Addr>,
                   avg: int, nb: nat, twice: bool)
    requires Linked(begin) && NoDup(unref) && (forall a :: a in unref ==> a in begin.m1 && a !in working)
    requires DrainLoop(begin, st, working, unref, listed, |unref|, nb, twice) && Runnable(st, working, working)
    requires InRun(begin, st, end, working, unref, listed, avg, Sources(begin, working))
    ensures Linked(end) && SameShape(begin, end) && Sum(listed, end.m1, Score) == Sum(listed, begin.m1, Score)
    ensures forall u :: u in unref ==> HeldBy(end.table, u) == {}
    ensures forall a :: a in begin.m1 && a !in working && a !in unref ==> HeldBy(end.table, a) == HeldBy(begin.table, a)
    ensures Untouched(begin, end)
    ensures forall p: nat :: p < |end.table| && p in end.treated ==> end.table[p] != begin.table[p]
    ensures Tracked(begin, end, working, unref) <==> Apart(begin, unref)
    ensures Short(st, working, nb, avg) ==> !Apart(begin, unref) && nb <= PREFIXES
  {
    SameShapeTwice(begin, st, end);
    PendingBounded(begin, unref, |unref|);
    forall u | u in unref ensures HeldBy(end.table, u) == {} {
      var j :| 0 <= j < |unref| && unref[j] == u;
      assert HeldBy(st.table, unref[j]) == {};
    }
    forall p: nat | p < |end.table| && p in end.treated ensures end.table[p] != begin.table[p] {
      TreatedIsChanged(begin, st, end, working, unref, p);
    }
    if Apart(begin, unref) {
      RightCountIsEnough(st, working, nb, avg);
    } else {
      SharedIsNotTracked(begin, end, working, unref);
    }
  }
}
