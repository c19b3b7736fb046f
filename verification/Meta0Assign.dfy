/**
 The META0 prefix allocator (meta0v2/meta0_prefixassign.c): drain of the disabled
 services, greedy rebalancing around the average score.
 */
module Meta0Assign {
  import opened Collections
  import opened Meta0Utils
  import opened Meta0AssignModel
  import opened Meta0Drain
  import opened Meta0Rebalance
  import opened Meta0Moves

  /** The URL loop of `_select_dest_assign_m1` for one candidate, with its `loop` flag. */
  method Acceptable(urls: seq<Addr>, src: Option<Addr>, d: Addr, force: bool) returns (ok: bool)
    ensures ok == Accepts(urls, src, d, force)
  {
    if urls == [] {
      return true;
    }
    var loop := true;
    for i := 0 to |urls|
      invariant loop <==> forall u :: u in urls[..i] ==> Some(u) == src
      invariant forall u :: u in urls[..i] && Some(u) != src ==> !Conflicts(u, src, d, force)
    {
      assert urls[..i + 1] == urls[..i] + [urls[i]];
      if Some(urls[i]) == src {
        continue;
      }
      if Conflicts(urls[i], src, d, force) {
        return false;
      }
      loop := false;
    }
    assert urls[..|urls|] == urls;
    return !loop;
  }

  class Allocator {
    const byPrefix: PrefixTable
    const avg: int
    var m1: map<Addr, Meta1>
    var treated: set<nat>

    ghost function Now(): State
      reads this, byPrefix
    {
      State(byPrefix.slots, m1, treated)
    }

    constructor (byPrefix: PrefixTable, avg: int, m1: map<Addr, Meta1>)
      ensures this.byPrefix == byPrefix && this.avg == avg && this.m1 == m1 && treated == {}
    {
      this.byPrefix, this.avg, this.m1, this.treated := byPrefix, avg, m1, {};
    }

    /** Tries the services from the end of the list and returns the first acceptable one. */
    method SelectDest(lst: seq<Addr>, src: Option<Addr>, p: nat, unref: bool, force: bool)
      returns (dest: Option<Addr>)
      requires p < |byPrefix.slots| && forall a :: a in lst ==> a in m1
      requires unref || ByScore(lst, m1)
      ensures dest.Some? ==>
        && dest.value in lst && Accepts(byPrefix.slots[p], src, dest.value, force)
        && (unref || m1[dest.value].score < avg)
        && (ByScore(lst, m1) ==> forall a :: a in lst && Accepts(byPrefix.slots[p], src, a, force) ==>
          m1[dest.value].score <= m1[a].score)
      ensures dest.None? ==> forall a :: a in lst && (unref || m1[a].score < avg) ==>
        !Accepts(byPrefix.slots[p], src, a, force)
      ensures dest.Some? ==> LastAccepted(byPrefix.slots[p], lst, src, dest.value, force)
      ensures dest == Pick(byPrefix.slots[p], lst, |lst|, m1, src, avg, unref, force)
    {
      var k := |lst|;
      while k > 0
        invariant 0 <= k <= |lst|
        invariant Pick(byPrefix.slots[p], lst, |lst|, m1, src, avg, unref, force) ==
          Pick(byPrefix.slots[p], lst, k, m1, src, avg, unref, force)
        invariant forall j :: k <= j < |lst| ==> !Accepts(byPrefix.slots[p], src, lst[j], force)
      {
        var d := lst[k - 1];
        if m1[d].score >= avg && !unref {
          return None;
        }
        var ok := Acceptable(byPrefix.slots[p], src, d, force);
        if ok {
          assert lst[k - 1] == d;
          return Some(d);
        }
        k := k - 1;
      }
      return None;
    }

    /** `_replace`. */
    method Replace(s: Addr, d: Addr)
      requires s in m1 && d in m1 && s != d
      requires m1[s].pending != [] && m1[s].pending[0] < |byPrefix.slots|
      modifies this`m1, this`treated, byPrefix
      ensures Now() == Move(old(Now()), s, d, avg)
    {
      var p := m1[s].pending[0];
      var done := byPrefix.Replace(p, s, d);
      if done {
        treated := treated + {p};
        m1 := m1[s := RemoveFirst(m1[s])];
        m1 := m1[s := Decrease(m1[s], avg)];
        m1 := m1[d := m1[d].(score := m1[d].score + 1)];
      }
    }

    /** One turn of the drain: the first pending prefix of `u` goes to a working service. */
    method HandOver(u: Addr, working: seq<Addr>, ghost drained: seq<Addr>) returns (dest: Option<Addr>)
      requires Linked(Now()) && u in m1 && u !in working && u in drained && m1[u].pending != []
      requires forall a :: a in working ==> a in m1
      modifies this`m1, this`treated, byPrefix
      ensures old(m1[u].pending[0]) < PREFIXES
      ensures dest == Taker(old(byPrefix.slots[m1[u].pending[0]]), working, old(m1), u, avg)
      ensures dest.None? ==>
        Now() == old(Now()) && !HasTaker(byPrefix.slots[old(m1[u].pending[0])], working, u)
      ensures dest.Some? ==>
        && dest.value in working && CanMove(old(Now()), u, dest.value)
        && Now() == Move(old(Now()), u, dest.value, avg)
        && HasTaker(old(byPrefix.slots[m1[u].pending[0]]), working, u)
        && HandedOver(old(byPrefix.slots[m1[u].pending[0]]), byPrefix.slots[old(m1[u].pending[0])],
                      u, dest.value, working, drained)
    {
      HeadIsHeld(Now(), u);
      var p := m1[u].pending[0];
      TakerFits(byPrefix.slots[p], working, m1, u, avg);
      dest := SelectDest(working, Some(u), p, true, false);
      if dest.None? {
        dest := SelectDest(working, Some(u), p, true, true);
        if dest.None? {
          return;
        }
      }
      Replace(u, dest.value);
    }

    /** Drains `u`: stops at the first prefix nobody takes; notes a prefix that was treated before. */
    method DrainOne(u: Addr, working: seq<Addr>, nb: nat, twice: bool,
                    ghost begin: State, ghost drained: seq<Addr>, ghost listed: seq<Addr>)
      returns (ok: bool, nb': nat, twice': bool)
      requires Linked(Now()) && u in m1 && u !in working && u in drained && Complete(Now(), [u])
      requires forall a :: a in working ==> a in m1
      requires Untouched(begin, Now())
      requires NoDup(listed) && u in listed && forall a :: a in working ==> a in listed
      modifies this`m1, this`treated, byPrefix
      ensures ok <==> Drainable(old(Now()), working, u)
      ensures ok ==> nb' == nb + |old(m1[u].pending)|
      ensures ok ==> (twice' <==> twice || !(Elements(old(m1[u].pending)) !! old(treated)))
      ensures ok ==> Drained(begin, old(Now()), Now(), working, drained, listed, u, |old(m1[u].pending)|)
      ensures ok ==> DrainRun(old(Now()), working, u, avg) == Some(Now())
    {
      ghost var st0 := Now();
      ghost var todo := m1[u].pending;
      ghost var k := 0;
      nb', twice' := nb, twice;
      DrainBegins(begin, st0, working, drained, listed, u, avg);
      while m1[u].pending != []
        invariant u in m1 && InDrain(begin, st0, Now(), working, drained, listed, u, k, avg) && nb' == nb + k
        invariant twice' <==> twice || !(Elements(todo[..k]) !! st0.treated)
        decreases |m1[u].pending|
      {
        ghost var st := Now();
        assert LinkedOne(st0.table, u, st0.m1[u]);
        DrainMet(st0, st, working, u, k);
        if m1[u].pending[0] in treated {
          twice' := true;
        }
        var dest := HandOver(u, working, drained);
        if dest.None? {
          DrainStuck(begin, st0, st, working, drained, listed, u, k, avg);
          return false, nb', twice';
        }
        DrainGoesOn(begin, st0, st, working, drained, listed, u, k, dest.value, avg);
        k := k + 1;
        nb' := nb' + 1;
      }
      DrainDone(todo, k);
      ok := true;
    }

    /** One turn of the first loop of `_assign`. */
    method DrainTurnOf(working: seq<Addr>, unref: seq<Addr>, i: nat, nb: nat, twice: bool,
                       ghost begin: State, ghost listed: seq<Addr>)
      returns (ok: bool, nb': nat, twice': bool)
      requires i < |unref| && Complete(begin, unref) && NoDup(unref)
      requires forall a :: a in working ==> a in begin.m1
      requires forall a :: a in unref ==> a !in working
      requires NoDup(listed) && forall a :: a in working || a in unref ==> a in listed
      requires DrainLoop(begin, Now(), working, unref, listed, i, nb, twice)
      modifies this`m1, this`treated, byPrefix
      ensures ok <==> FeasibleFor(begin, working, unref, i + 1)
      ensures ok ==> DrainLoop(begin, Now(), working, unref, listed, i + 1, nb', twice')
      ensures ok ==> unref[i] in old(m1) && DrainRun(old(Now()), working, unref[i], avg) == Some(Now())
    {
      ghost var st := Now();
      assert unref[i] in unref && LinkedOne(st.table, unref[i], st.m1[unref[i]]);
      DrainableIffFeasible(begin, st, working, unref, listed, i);
      ok, nb', twice' := DrainOne(unref[i], working, nb, twice, begin, unref, listed);
      if ok {
        DrainNth(begin, st, Now(), working, unref, listed, i, nb, twice);
      }
    }

    /**
     The first loop of `_assign`. It succeeds iff every prefix has working services enough for the
     drains it takes part in; `twice` is the error for a prefix met a second time, which is not returned.
     */
    method Drain(working: seq<Addr>, unref: seq<Addr>, ghost listed: seq<Addr>)
      returns (ok: bool, nb: nat, twice: bool)
      requires Linked(Now()) && treated == {} && Complete(Now(), unref)
      requires forall a :: a in working ==> a in m1
      requires NoDup(unref) && forall a :: a in unref ==> a !in working
      requires NoDup(listed) && forall a :: a in working || a in unref ==> a in listed
      modifies this`m1, this`treated, byPrefix
      ensures ok <==> Feasible(old(Now()), working, unref)
      ensures ok ==> DrainLoop(old(Now()), Now(), working, unref, listed, |unref|, nb, twice)
      ensures ok ==> DrainAll(old(Now()), working, unref, 0, avg) == Some(Now())
    {
      ghost var begin := Now();
      nb, twice := 0, false;
      var i := 0;
      assert DrainLoop(begin, Now(), working, unref, listed, i, nb, twice);
      while i < |unref|
        invariant i <= |unref| && DrainLoop(begin, Now(), working, unref, listed, i, nb, twice)
        invariant DrainAll(Now(), working, unref, i, avg) == DrainAll(begin, working, unref, 0, avg)
      {
        ok, nb, twice := DrainTurnOf(working, unref, i, nb, twice, begin, listed);
        i := i + 1;
        if !ok {
          InfeasibleEarly(begin, working, unref, i);
          return;
        }
      }
      ok := true;
    }

    /** `_select_source_assign_m1`; services without an untreated prefix lose their availability. */
    method SelectSource(lst: seq<Addr>) returns (src: Option<Addr>)
      requires forall a :: a in lst ==> a in m1
      modifies this`m1
      ensures (Now(), src) == Scan(old(Now()), lst, avg)
      decreases |lst|
    {
      if lst == [] {
        return None;
      }
      var a := lst[0];
      if m1[a].score <= avg {
        return None;
      }
      var prefixes := SkipTreated(m1[a].pending, treated);
      m1 := m1[a := m1[a].(pending := prefixes, available := m1[a].available && prefixes != [])];
      if !m1[a].available {
        src := SelectSource(lst[1..]);
      } else {
        src := Some(a);
      }
    }

    /** One turn of the second loop of `_assign`, on the list already sorted by score. */
    method Turn(lst: seq<Addr>, ghost working: seq<Addr>) returns (src: Option<Addr>, dest: Option<Addr>)
      requires Runnable(Now(), lst, working) && ByScore(lst, m1)
      modifies this`m1, this`treated, byPrefix
      ensures (Now(), src, dest) == TurnResult(old(Now()), lst, working, avg)
      ensures FirstWithWork(old(Now()), lst, avg, src)
    {
      ghost var st := Now();
      ScanFindsFirst(st, lst, avg);
      ScanSearches(st, lst, avg);
      ScanRunnable(st, lst, working, avg);
      src := SelectSource(lst);
      if src.None? {
        return None, None;
      }
      var s := src.value;
      HeadIsHeld(Now(), s);
      SameOrder(lst, st.m1, m1);
      dest := SelectDest(lst, src, m1[s].pending[0], false, false);
      if dest.Some? {
        Replace(s, dest.value);
      } else {
        m1 := m1[s := RemoveFirst(m1[s])];
      }
    }

    /**
     The body of the second loop of `_assign`. `left` is the number of moves still to come if the count
     did not stop the loop.
     */
    method RebalanceTurn(lst: seq<Addr>, working: seq<Addr>, nb: nat, ghost begin: State, ghost st0: State,
                         ghost drained: seq<Addr>, ghost listed: seq<Addr>, ghost sources: set<Addr>)
      returns (lst': seq<Addr>, nb': nat, loop: bool, ghost left: nat)
      requires Runnable(Now(), lst, working) && InRun(begin, st0, Now(), working, drained, listed, avg, sources)
      requires NoDup(listed) && forall a :: a in working ==> a in listed
      requires OnlySources(Now(), working, sources) && forall a :: a in sources ==> a in working
      modifies this`m1, this`treated, byPrefix
      ensures Runnable(Now(), lst', working) && InRun(begin, st0, Now(), working, drained, listed, avg, sources)
      ensures OnlySources(Now(), working, sources)
      ensures nb' == nb + if TurnResult(old(Now()), SortByScore(lst, old(m1)), working, avg).2.Some? then 1 else 0
      ensures Moves(old(Now()), lst, working, avg) == nb' - nb + left
      ensures loop ==> left == Moves(Now(), lst', working, avg) && nb' != PREFIXES
      ensures Sum(working, m1, Left) <= Sum(working, old(m1), Left) - if loop then 1 else 0
      ensures !loop ==> (Exhausted(Now(), working, avg, sources) <==> left == 0)
      ensures !loop && nb' != PREFIXES ==> left == 0
    {
      ghost var st := Now();
      lst' := SortByScore(lst, m1);
      TurnGoesOn(st, lst', working, avg);
      TurnOnlySources(st, lst', working, avg, sources);
      var src, dest := Turn(lst', working);
      TurnInRun(begin, st0, st, Now(), lst', working, drained, listed, avg, sources, src, dest);
      loop, nb', left := true, nb, 0;
      if src.None? {
        loop := false;
      } else {
        left := Moves(Now(), lst', working, avg);
        ExhaustedIffNoMove(Now(), lst', working, avg, sources);
        if dest.Some? {
          nb' := nb' + 1;
        }
      }
      if nb' == PREFIXES {
        loop := false;
      }
    }

    /** The second loop of `_assign`: turns until no source is left or as many moves as prefixes were counted. */
    method Rebalance(working: seq<Addr>, nb: nat, ghost begin: State, ghost drained: seq<Addr>,
                     ghost listed: seq<Addr>, ghost sources: set<Addr>)
      returns (nb': nat)
      requires Runnable(Now(), working, working) && Untouched(begin, Now()) && Settled(Now(), working, avg, sources)
      requires NoDup(listed) && forall a :: a in working ==> a in listed
      requires OnlySources(Now(), working, sources) && forall a :: a in sources ==> a in working
      modifies this`m1, this`treated, byPrefix
      ensures InRun(begin, old(Now()), Now(), working, drained, listed, avg, sources)
      ensures Exhausted(Now(), working, avg, sources) <==> !Short(old(Now()), working, nb, avg)
    {
      ghost var st0 := Now();
      var lst, loop;
      ghost var left;
      lst, nb', loop, left := RebalanceTurn(working, working, nb, begin, st0, drained, listed, sources);
      while loop
        invariant Runnable(Now(), lst, working) && InRun(begin, st0, Now(), working, drained, listed, avg, sources)
        invariant OnlySources(Now(), working, sources)
        invariant Moves(st0, working, working, avg) == nb' - nb + left
        invariant nb <= nb' && (nb < PREFIXES ==> nb' <= PREFIXES)
        invariant loop ==> left == Moves(Now(), lst, working, avg) && nb' != PREFIXES
        invariant !loop ==> (Exhausted(Now(), working, avg, sources) <==> left == 0)
        invariant !loop && nb' != PREFIXES ==> left == 0
        invariant nb == PREFIXES && nb' == PREFIXES ==>
          !loop && TurnResult(st0, SortByScore(working, st0.m1), working, avg).2.None?
        invariant nb == PREFIXES && nb' > PREFIXES ==>
          TurnResult(st0, SortByScore(working, st0.m1), working, avg).2.Some?
        decreases Sum(working, m1, Left), loop
      {
        LeftIsNat(working, m1);
        lst, nb', loop, left := RebalanceTurn(lst, working, nb', begin, st0, drained, listed, sources);
        LeftIsNat(working, m1);
      }
    }

    /** `_assign`: drains `unref`, then rebalances. */
    method Assign(working: seq<Addr>, unref: seq<Addr>, ghost listed: seq<Addr>) returns (ok: bool, twice: bool)
      requires Linked(Now()) && treated == {} && Complete(Now(), working) && Complete(Now(), unref)
      requires NoDup(working) && NoDup(unref) && forall a :: a in unref ==> a !in working
      requires NoDup(listed) && forall a :: a in working || a in unref ==> a in listed
      modifies this`m1, this`treated, byPrefix
      // the link between table, scores and lists holds again; replicas and scores are conserved
      ensures ok ==> Linked(Now()) && SameShape(old(Now()), Now())
      ensures ok ==> Sum(listed, m1, Score) == Sum(listed, old(m1), Score)
      // the drained services hold nothing, and nobody else but a working one is concerned
      ensures ok ==> forall u :: u in unref ==> HeldBy(byPrefix.slots, u) == {}
      ensures ok ==> forall a :: a in old(m1) && a !in working && a !in unref ==>
        HeldBy(byPrefix.slots, a) == HeldBy(old(byPrefix.slots), a)
      // success is decided at the start; a prefix met twice is only noted
      ensures ok <==> Feasible(old(Now()), working, unref)
      ensures ok ==> (twice <==> !Apart(old(Now()), unref))
      // a prefix is treated iff its vector changed
      ensures ok ==> forall p: nat :: p < PREFIXES ==>
        (p in treated <==> byPrefix.slots[p] != old(byPrefix.slots)[p])
      // each prefix changes at most once iff the drained services share none
      ensures ok ==> (Tracked(old(Now()), Now(), working, unref) <==> Apart(old(Now()), unref))
      // no further prefix could be moved, unless the count stopped the run
      ensures ok ==> (Exhausted(Now(), working, avg, Sources(old(Now()), working)) <==>
        !StopsShort(old(Now()), working, unref, avg))
      ensures ok && StopsShort(old(Now()), working, unref, avg) ==>
        !Apart(old(Now()), unref) && HandOvers(old(Now()), unref, |unref|) <= PREFIXES
      ensures ok ==>
        var drained := DrainAll(old(Now()), working, unref, 0, avg);
        drained.Some? && DrainedFrame(old(Now()), drained.value, working, unref, listed, |unref|)
      // without a drain, every treated prefix took two points off the imbalance
      ensures unref == [] ==>
        ok && Sum(working, m1, Gap(avg)) == Sum(working, old(m1), Gap(avg)) - 2 * |treated|
    {
      ghost var begin := Now();
      ghost var sources := Sources(begin, working);
      var nb := 0;
      ok, twice := true, false;
      if unref != [] {
        ok, nb, twice := Drain(working, unref, listed);
        if !ok {
          return;
        }
      }
      ghost var st := Now();
      assert DrainLoop(begin, st, working, unref, listed, |unref|, nb, twice);
      SettledAfterDrain(begin, st, working, unref, listed, avg);
      var nb' := Rebalance(working, nb, begin, unref, listed, sources);
      AssignEnds(begin, st, Now(), working, unref, listed, avg, nb, twice);
    }
  }
}
