/**
 What the drain of the disabled services does (first loop of `_assign`,
 meta0v2/meta0_prefixassign.c), stated on the allocator's states.
 */
module Meta0Drain {
  import opened Collections
  import opened Meta0Utils
  import opened Meta0AssignModel

  ghost predicate Complete(st: State, list: seq<Addr>) {
    forall a :: a in list ==> a in st.m1 && forall p :: p in HeldBy(st.table, a) ==> p in st.m1[a].pending
  }

  ghost predicate ShareNone(st: State, a: Addr, b: Addr)
    requires a in st.m1 && b in st.m1
  {
    Elements(st.m1[a].pending) !! Elements(st.m1[b].pending)
  }

  /** No prefix is pending at two of the first `n` services. */
  ghost predicate ApartFor(st: State, list: seq<Addr>, n: nat)
    requires n <= |list| && forall a :: a in list ==> a in st.m1
  {
    forall i, j :: 0 <= i < j < n ==> ShareNone(st, list[i], list[j])
  }

  /** No prefix is pending at two of the services. */
  ghost predicate Apart(st: State, list: seq<Addr>)
    requires forall a :: a in list ==> a in st.m1
  {
    ApartFor(st, list, |list|)
  }

  /** Some working service can be forced to take the place of `u`. */
  ghost predicate HasTaker(urls: seq<Addr>, working: seq<Addr>, u: Addr) {
    exists d {:trigger Accepts(urls, Some(u), d, true)} :: d in working && Accepts(urls, Some(u), d, true)
  }

  ghost predicate TakersFor(t: Slots, working: seq<Addr>, u: Addr, prefixes: set<nat>) {
    forall p :: p in prefixes ==> p < |t| && HasTaker(t[p], working, u)
  }

  lemma TakersGrow(t: Slots, working: seq<Addr>, u: Addr, prefixes: set<nat>, p: nat)
    requires TakersFor(t, working, u, prefixes) && p < |t| && HasTaker(t[p], working, u)
    ensures TakersFor(t, working, u, prefixes + {p})
  {
  }

  /** A place can be taken over iff there is another replica and a working service outside the vector. */
  lemma TakerIffRoom(v: seq<Addr>, working: seq<Addr>, u: Addr)
    requires NoDup(v) && u in v && u !in working
    ensures HasTaker(v, working, u) <==> |v| >= 2 && Room(v, working) > 0
  {
    forall d | d in working ensures Accepts(v, Some(u), d, true) <==> |v| >= 2 && d !in v {
      ForcedAcceptance(v, u, d);
    }
    var outside := Members(working) - Members(v);
    if Room(v, working) > 0 {
      var d :| d in outside;
      assert d in working && d !in v;
    }
    assert forall d :: d in working && d !in v ==> d in outside;
  }

  /** Every prefix of `u` could go to some working service. */
  ghost predicate Drainable(st: State, working: seq<Addr>, u: Addr)
    requires u in st.m1
  {
    TakersFor(st.table, working, u, Elements(st.m1[u].pending))
  }

  /** Between two states only scores of working services and the record of `u` changed. */
  ghost predicate OnlyDrains(st0: State, st: State, working: seq<Addr>, u: Addr) {
    && SameShape(st0, st)
    && (forall a :: a in st.m1 && a !in working && a != u ==>
      st.m1[a] == st0.m1[a] && HeldBy(st.table, a) == HeldBy(st0.table, a))
    && forall a :: a in st.m1 && a in working ==> st.m1[a] == st0.m1[a].(score := st.m1[a].score)
  }

  ghost function Elements(s: seq<nat>): set<nat> {
    set x | x in s
  }

  lemma {:induction false} ElementsSize(s: seq<nat>)
    requires NoDup(s)
    ensures |Elements(s)| == |s|
  {
    if s == [] {
    } else {
      TailOfNoDup(s);
      ElementsSize(s[1..]);
      assert Elements(s) == Elements(s[1..]) + {s[0]};
    }
  }

  /** `k` prefixes of `u` have been handed over since `st0`. */
  ghost predicate Draining(st0: State, st: State, working: seq<Addr>, u: Addr, k: nat)
    requires u in st0.m1
  {
    var todo := st0.m1[u].pending;
    && Linked(st) && OnlyDrains(st0, st, working, u)
    && k <= |todo| && st.m1[u].pending == todo[k..] && HeldBy(st.table, u) == Elements(todo[k..])
    && st.treated == st0.treated + Elements(todo[..k])
    && forall p: nat :: p < PREFIXES && p !in Elements(todo[..k]) ==> st.table[p] == st0.table[p]
  }

  lemma MoveOnlyDrains(st: State, working: seq<Addr>, u: Addr, d: Addr, avg: int)
    requires Linked(st) && CanMove(st, u, d) && d in working && u !in working
    ensures OnlyDrains(st, Move(st, u, d, avg), working, u)
  {
    var st' := Move(st, u, d, avg);
    MoveKeepsLink(st, u, d, avg);
    forall a | a in st'.m1 && a !in working && a != u ensures HeldBy(st'.table, a) == HeldBy(st.table, a) {
      MoveLinksOne(st, u, d, avg, a);
    }
  }

  lemma OnlyDrainsTwice(st0: State, st: State, st': State, working: seq<Addr>, u: Addr)
    requires OnlyDrains(st0, st, working, u) && OnlyDrains(st, st', working, u)
    ensures OnlyDrains(st0, st', working, u)
  {
  }

  lemma DrainStep(st0: State, st: State, working: seq<Addr>, u: Addr, k: nat, d: Addr, avg: int)
    requires u in st0.m1 && NoDup(st0.m1[u].pending) && Draining(st0, st, working, u, k)
    requires CanMove(st, u, d) && d in working && u !in working
    ensures Draining(st0, Move(st, u, d, avg), working, u, k + 1)
  {
    var todo := st0.m1[u].pending;
    var st' := Move(st, u, d, avg);
    DrainLists(todo, k);
    assert OnlyDrains(st0, st', working, u) by {
      MoveOnlyDrains(st, working, u, d, avg);
      OnlyDrainsTwice(st0, st, st', working, u);
    }
    assert Linked(st') && st'.m1[u].pending == todo[k + 1..] && st'.treated == st.treated + {todo[k]} by {
      MoveKeepsLink(st, u, d, avg);
    }
    assert HeldBy(st'.table, u) == Elements(todo[k + 1..]) by {
      MoveLinksOne(st, u, d, avg, u);
    }
    assert st'.treated == st0.treated + Elements(todo[..k + 1]);
    assert forall p: nat :: p < PREFIXES && p !in Elements(todo[..k + 1]) ==> st'.table[p] == st0.table[p] by {
      DrainElsewhere(st0, st, working, u, k, d, avg);
    }
  }

  lemma DrainElsewhere(st0: State, st: State, working: seq<Addr>, u: Addr, k: nat, d: Addr, avg: int)
    requires u in st0.m1 && NoDup(st0.m1[u].pending) && Draining(st0, st, working, u, k) && CanMove(st, u, d)
    ensures var todo, st' := st0.m1[u].pending, Move(st, u, d, avg);
            |st'.table| == PREFIXES && k < |todo| &&
            forall p: nat :: p < PREFIXES && p !in Elements(todo[..k + 1]) ==> st'.table[p] == st0.table[p]
  {
    var todo := st0.m1[u].pending;
    DrainLists(todo, k);
    forall p: nat | p < PREFIXES && p !in Elements(todo[..k + 1]) ensures Move(st, u, d, avg).table[p] == st0.table[p] {
      MoveElsewhere(st, u, d, avg, p);
    }
  }

  lemma DrainLists(todo: seq<nat>, k: nat)
    requires NoDup(todo) && k < |todo|
    ensures todo[k..][1..] == todo[k + 1..]
    ensures Elements(todo[..k + 1]) == Elements(todo[..k]) + {todo[k]}
    ensures Elements(todo[k + 1..]) == Elements(todo[k..]) - {todo[k]}
    ensures todo[k] !in todo[..k]
  {
    assert todo == todo[..k] + todo[k..] && todo[..k + 1] == todo[..k] + [todo[k]];
    assert multiset(todo) == multiset(todo[..k]) + multiset(todo[k..]);
    assert multiset(todo)[todo[k]] <= 1 && NoDup(todo[k..]) by {
      forall x ensures multiset(todo[k..])[x] <= 1 {
        assert multiset(todo)[x] <= 1;
      }
    }
    TailOfNoDup(todo[k..]);
  }

  /** Everything the drain of `u` has established once `k` of its prefixes are gone. */
  ghost predicate Drained(begin: State, st0: State, st: State, working: seq<Addr>, drained: seq<Addr>,
                          listed: seq<Addr>, u: Addr, k: nat)
    requires u in st0.m1
  {
    && Draining(st0, st, working, u, k)
    && Untouched(begin, st)
    && Sum(listed, st.m1, Score) == Sum(listed, st0.m1, Score)
    && RoomUsed(st0, st, working, Elements(st0.m1[u].pending[..k]))
    && (Elements(st0.m1[u].pending) !! st0.treated && Tracked(begin, st0, working, drained) ==>
      Tracked(begin, st, working, drained))
  }

  /** Each of the prefixes has one working service less outside its vector. */
  ghost predicate RoomUsed(st0: State, st: State, working: seq<Addr>, prefixes: set<nat>) {
    forall p :: p in prefixes ==>
      p < |st.table| && p < |st0.table| && Room(st.table[p], working) + 1 == Room(st0.table[p], working)
  }

  lemma RoomAfterMove(st: State, working: seq<Addr>, u: Addr, d: Addr, avg: int)
    requires Linked(st) && CanMove(st, u, d) && d in working && u !in working
    ensures var p, st' := st.m1[u].pending[0], Move(st, u, d, avg);
            |st'.table| == |st.table| && Room(st'.table[p], working) + 1 == Room(st.table[p], working)
  {
    var p := st.m1[u].pending[0];
    assert LinkedOne(st.table, u, st.m1[u]) && p in st.m1[u].pending && p in HeldBy(st.table, u);
    RoomSpent(st.table[p], working, u, d);
  }

  lemma RoomUsedNext(st0: State, st: State, st': State, working: seq<Addr>, done: set<nat>, p: nat)
    requires RoomUsed(st0, st, working, done) && |st'.table| == |st.table|
    requires forall q: nat :: q < |st.table| && q != p ==> st'.table[q] == st.table[q]
    requires p !in done && p < |st.table| && p < |st0.table| && st.table[p] == st0.table[p]
    requires Room(st'.table[p], working) + 1 == Room(st.table[p], working)
    ensures RoomUsed(st0, st', working, done + {p})
  {
  }

  /** The next prefix of `u` still has the vector it had when the drain of `u` began. */
  lemma DrainHead(st0: State, st: State, working: seq<Addr>, u: Addr, k: nat)
    requires u in st0.m1 && NoDup(st0.m1[u].pending) && Draining(st0, st, working, u, k) && st.m1[u].pending != []
    ensures var p := st.m1[u].pending[0];
            p < PREFIXES && p in Elements(st0.m1[u].pending) && st.table[p] == st0.table[p]
    ensures var p := st.m1[u].pending[0];
            HasTaker(st0.table[p], working, u) && TakersFor(st0.table, working, u, Elements(st0.m1[u].pending[..k])) ==>
              TakersFor(st0.table, working, u, Elements(st0.m1[u].pending[..k + 1]))
  {
    var todo := st0.m1[u].pending;
    DrainLists(todo, k);
    assert LinkedOne(st.table, u, st.m1[u]) && todo[k] in st.m1[u].pending;
    if HasTaker(st0.table[todo[k]], working, u) && TakersFor(st0.table, working, u, Elements(todo[..k])) {
      TakersGrow(st0.table, working, u, Elements(todo[..k]), todo[k]);
    }
  }

  /** The next prefix was treated before iff it was when the drain of `u` began. */
  lemma DrainMet(st0: State, st: State, working: seq<Addr>, u: Addr, k: nat)
    requires u in st0.m1 && NoDup(st0.m1[u].pending) && Draining(st0, st, working, u, k) && st.m1[u].pending != []
    ensures k < |st0.m1[u].pending|
    ensures !(Elements(st0.m1[u].pending[..k + 1]) !! st0.treated) <==>
      !(Elements(st0.m1[u].pending[..k]) !! st0.treated) || st.m1[u].pending[0] in st.treated
  {
    DrainLists(st0.m1[u].pending, k);
  }

  lemma DrainRoom(st0: State, st: State, working: seq<Addr>, u: Addr, k: nat, d: Addr, avg: int)
    requires u in st0.m1 && NoDup(st0.m1[u].pending) && Draining(st0, st, working, u, k)
    requires CanMove(st, u, d) && d in working && u !in working
    requires RoomUsed(st0, st, working, Elements(st0.m1[u].pending[..k]))
    ensures RoomUsed(st0, Move(st, u, d, avg), working, Elements(st0.m1[u].pending[..k + 1]))
  {
    var todo := st0.m1[u].pending;
    DrainLists(todo, k);
    DrainHead(st0, st, working, u, k);
    RoomAfterMove(st, working, u, d, avg);
    RoomUsedNext(st0, st, Move(st, u, d, avg), working, Elements(todo[..k]), todo[k]);
  }

  lemma DrainDone(todo: seq<nat>, k: nat)
    requires k <= |todo| && todo[k..] == []
    ensures k == |todo| && todo[..k] == todo
  {
  }

  lemma DrainTurn(begin: State, st0: State, st: State, working: seq<Addr>, drained: seq<Addr>,
                  listed: seq<Addr>, u: Addr, k: nat, d: Addr, avg: int)
    requires u in st0.m1 && NoDup(st0.m1[u].pending) && Drained(begin, st0, st, working, drained, listed, u, k)
    requires CanMove(st, u, d) && d in working && u !in working
    requires HandedOver(st.table[st.m1[u].pending[0]], Move(st, u, d, avg).table[st.m1[u].pending[0]],
                        u, d, working, drained)
    requires NoDup(listed) && u in listed && d in listed
    ensures Drained(begin, st0, Move(st, u, d, avg), working, drained, listed, u, k + 1)
  {
    var todo := st0.m1[u].pending;
    var st' := Move(st, u, d, avg);
    assert Draining(st0, st', working, u, k + 1) by {
      DrainStep(st0, st, working, u, k, d, avg);
    }
    assert Sum(listed, st'.m1, Score) == Sum(listed, st.m1, Score) by {
      MoveConserves(st, u, d, avg, listed);
    }
    assert RoomUsed(st0, st', working, Elements(todo[..k + 1])) by {
      DrainRoom(st0, st, working, u, k, d, avg);
    }
    DrainLists(todo, k);
    assert todo[k] in Elements(todo);
    assert Untouched(begin, st') && (Tracked(begin, st, working, drained) && todo[k] !in st.treated ==>
      Tracked(begin, st', working, drained)) by {
      MoveTracks(begin, st, u, d, avg, working, drained);
    }
  }

  // ----- the drain of several services

  /** The prefixes pending at the first `i` services of the list. */
  ghost function PendingOf(st: State, list: seq<Addr>, i: nat): set<nat>
    requires i <= |list| && forall a :: a in list ==> a in st.m1
  {
    if i == 0 then {} else PendingOf(st, list, i - 1) + Elements(st.m1[list[i - 1]].pending)
  }

  lemma {:induction false} PendingAtOne(st: State, list: seq<Addr>, i: nat, p: nat)
    requires i <= |list| && forall a :: a in list ==> a in st.m1
    ensures p in PendingOf(st, list, i) <==> exists j :: 0 <= j < i && p in st.m1[list[j]].pending
  {
    if i == 0 {
    } else {
      PendingAtOne(st, list, i - 1, p);
    }
  }

  /** How many of the first `i` services of the list have `p` pending. */
  ghost function Turns(st: State, list: seq<Addr>, i: nat, p: nat): nat
    requires i <= |list| && forall a :: a in list ==> a in st.m1
  {
    if i == 0 then 0 else Turns(st, list, i - 1, p) + if p in st.m1[list[i - 1]].pending then 1 else 0
  }

  lemma {:induction false} TurnsGrow(st: State, list: seq<Addr>, i: nat, j: nat, p: nat)
    requires i <= j <= |list| && forall a :: a in list ==> a in st.m1
    ensures Turns(st, list, i, p) <= Turns(st, list, j, p)
    decreases j
  {
    if i == j {
    } else {
      TurnsGrow(st, list, i, j - 1, p);
    }
  }

  /** How many hand-overs the drain of the first `i` services takes. */
  ghost function HandOvers(st: State, list: seq<Addr>, i: nat): nat
    requires i <= |list| && forall a :: a in list ==> a in st.m1
  {
    if i == 0 then 0 else HandOvers(st, list, i - 1) + |st.m1[list[i - 1]].pending|
  }

  /** Every hand-over of a prefix used up one working service outside its vector. */
  ghost predicate Spent(begin: State, st: State, working: seq<Addr>, unref: seq<Addr>, i: nat)
    requires i <= |unref| && forall a :: a in unref ==> a in begin.m1
  {
    && |st.table| == |begin.table|
    && forall p: nat :: p < |st.table| ==>
      Room(st.table[p], working) + Turns(begin, unref, i, p) == Room(begin.table[p], working)
  }

  /** There are enough replicas and working services for the prefixes of the first `i` services. */
  ghost predicate FeasibleFor(begin: State, working: seq<Addr>, unref: seq<Addr>, i: nat)
    requires i <= |unref| && forall a :: a in unref ==> a in begin.m1
  {
    forall p: nat :: p < |begin.table| && Turns(begin, unref, i, p) > 0 ==>
      |begin.table[p]| >= 2 && Turns(begin, unref, i, p) <= Room(begin.table[p], working)
  }

  /** Each prefix has enough working services outside its vector for all the drains it takes part in. */
  ghost predicate Feasible(begin: State, working: seq<Addr>, unref: seq<Addr>)
    requires forall a :: a in unref ==> a in begin.m1
  {
    FeasibleFor(begin, working, unref, |unref|)
  }

  lemma FeasibleEarlier(begin: State, working: seq<Addr>, unref: seq<Addr>, i: nat, j: nat)
    requires i <= j <= |unref| && (forall a :: a in unref ==> a in begin.m1)
    requires FeasibleFor(begin, working, unref, j)
    ensures FeasibleFor(begin, working, unref, i)
  {
    forall p: nat ensures Turns(begin, unref, i, p) <= Turns(begin, unref, j, p) {
      TurnsGrow(begin, unref, i, j, p);
    }
  }

  /** A drain that cannot be done makes all of them together impossible. */
  lemma InfeasibleEarly(begin: State, working: seq<Addr>, unref: seq<Addr>, i: nat)
    requires i <= |unref| && (forall a :: a in unref ==> a in begin.m1)
    requires !FeasibleFor(begin, working, unref, i)
    ensures !Feasible(begin, working, unref)
  {
    if Feasible(begin, working, unref) {
      FeasibleEarlier(begin, working, unref, i, |unref|);
    }
  }

  lemma {:induction false} ApartFromEarlier(st: State, list: seq<Addr>, i: nat, j: nat)
    requires i <= j < |list| && (forall a :: a in list ==> a in st.m1) && Apart(st, list)
    ensures PendingOf(st, list, i) !! Elements(st.m1[list[j]].pending)
  {
    if i == 0 {
    } else {
      ApartFromEarlier(st, list, i - 1, j);
      assert ShareNone(st, list[i - 1], list[j]);
    }
  }

  /** The first `i` services of `unref` are drained; nobody else but the working ones is concerned. */
  ghost predicate DrainedServices(begin: State, st: State, working: seq<Addr>, unref: seq<Addr>, i: nat)
    requires i <= |unref| && (forall a :: a in unref ==> a in begin.m1) && st.m1.Keys == begin.m1.Keys
  {
    && (forall j :: 0 <= j < i ==> HeldBy(st.table, unref[j]) == {})
    && (forall j :: i <= j < |unref| ==>
      st.m1[unref[j]] == begin.m1[unref[j]] && HeldBy(st.table, unref[j]) == HeldBy(begin.table, unref[j]))
    && (forall a :: a in working && a in begin.m1 ==> st.m1[a] == begin.m1[a].(score := st.m1[a].score))
    && (forall a :: a in begin.m1 && a !in working && a !in unref ==> HeldBy(st.table, a) == HeldBy(begin.table, a))
  }

  /** The state of the drain loop after `i` services. */
  ghost predicate DrainedFrame(begin: State, st: State, working: seq<Addr>, unref: seq<Addr>,
                               listed: seq<Addr>, i: nat)
    requires i <= |unref| && forall a :: a in unref ==> a in begin.m1
  {
    && Linked(st) && SameShape(begin, st) && Untouched(begin, st)
    && Sum(listed, st.m1, Score) == Sum(listed, begin.m1, Score)
    && st.treated == PendingOf(begin, unref, i)
    && DrainedServices(begin, st, working, unref, i)
    && Spent(begin, st, working, unref, i)
  }

  /** What the drains add when no two drained services share a prefix. */
  ghost predicate DrainedApart(begin: State, st: State, working: seq<Addr>, unref: seq<Addr>, i: nat, nb: nat)
    requires i <= |unref| && forall a :: a in unref ==> a in begin.m1
  {
    Tracked(begin, st, working, unref) && |st.treated| == nb
  }

  lemma DrainNextServices(begin: State, st0: State, st: State, working: seq<Addr>, unref: seq<Addr>, i: nat)
    requires i < |unref| && NoDup(unref) && (forall a :: a in unref ==> a in begin.m1 && a !in working)
    requires st0.m1.Keys == begin.m1.Keys && DrainedServices(begin, st0, working, unref, i)
    requires OnlyDrains(st0, st, working, unref[i]) && HeldBy(st.table, unref[i]) == {}
    ensures DrainedServices(begin, st, working, unref, i + 1)
  {
    var u := unref[i];
    assert u in unref;
    forall j | 0 <= j < i ensures HeldBy(st.table, unref[j]) == {} {
      NoDupAt(unref, j, i);
      assert unref[j] in unref;
    }
    forall j | i + 1 <= j < |unref| ensures
      st.m1[unref[j]] == begin.m1[unref[j]] && HeldBy(st.table, unref[j]) == HeldBy(begin.table, unref[j]) {
      NoDupAt(unref, i, j);
      assert unref[j] in unref;
    }
  }

  lemma SpentNext(begin: State, st0: State, st: State, working: seq<Addr>, unref: seq<Addr>, i: nat)
    requires i < |unref| && (forall a :: a in unref ==> a in begin.m1)
    requires Spent(begin, st0, working, unref, i) && |st.table| == |st0.table|
    requires RoomUsed(st0, st, working, Elements(begin.m1[unref[i]].pending))
    requires forall p: nat :: p < |st.table| && p !in Elements(begin.m1[unref[i]].pending) ==>
      st.table[p] == st0.table[p]
    ensures Spent(begin, st, working, unref, i + 1)
  {
    var todo := begin.m1[unref[i]].pending;
    forall p: nat | p < |st.table|
      ensures Room(st.table[p], working) + Turns(begin, unref, i + 1, p) == Room(begin.table[p], working) {
      assert p in Elements(todo) <==> p in todo;
      assert Room(st0.table[p], working) + Turns(begin, unref, i, p) == Room(begin.table[p], working);
    }
  }

  /** Draining the next service keeps what the earlier drains established. */
  lemma DrainNext(begin: State, st0: State, st: State, working: seq<Addr>, unref: seq<Addr>,
                  listed: seq<Addr>, i: nat)
    requires i < |unref| && NoDup(unref) && (forall a :: a in unref ==> a in begin.m1 && a !in working)
    requires DrainedFrame(begin, st0, working, unref, listed, i)
    requires Drained(begin, st0, st, working, unref, listed, unref[i], |st0.m1[unref[i]].pending|)
    ensures DrainedFrame(begin, st, working, unref, listed, i + 1)
  {
    var todo := st0.m1[unref[i]].pending;
    assert todo[..|todo|] == todo && todo[|todo|..] == [];
    SameShapeTwice(begin, st0, st);
    DrainNextServices(begin, st0, st, working, unref, i);
    assert Spent(begin, st, working, unref, i + 1) by {
      SpentNext(begin, st0, st, working, unref, i);
    }
    assert st.treated == PendingOf(begin, unref, i + 1);
  }

  lemma DrainNextApart(begin: State, st0: State, st: State, working: seq<Addr>, unref: seq<Addr>, i: nat, nb: nat)
    requires i < |unref| && (forall a :: a in unref ==> a in begin.m1) && Apart(begin, unref)
    requires NoDup(begin.m1[unref[i]].pending) && st0.treated == PendingOf(begin, unref, i)
    requires DrainedApart(begin, st0, working, unref, i, nb)
    requires st.treated == st0.treated + Elements(begin.m1[unref[i]].pending)
    requires Elements(begin.m1[unref[i]].pending) !! st0.treated ==> Tracked(begin, st, working, unref)
    ensures DrainedApart(begin, st, working, unref, i + 1, nb + |begin.m1[unref[i]].pending|)
  {
    ApartFromEarlier(begin, unref, i, i);
    ElementsSize(begin.m1[unref[i]].pending);
  }

  /** Among the prefixes of a service about to be drained, those with a taker are those with room left. */
  lemma TakersIffRoom(begin: State, st: State, working: seq<Addr>, unref: seq<Addr>, i: nat, p: nat)
    requires i < |unref| && (forall a :: a in unref ==> a in begin.m1 && a !in working)
    requires p < |st.table| && unref[i] in st.table[p] && NoDup(st.table[p]) && p in begin.m1[unref[i]].pending
    requires Spent(begin, st, working, unref, i) && |st.table[p]| == |begin.table[p]|
    ensures HasTaker(st.table[p], working, unref[i]) <==>
      |begin.table[p]| >= 2 && Turns(begin, unref, i + 1, p) <= Room(begin.table[p], working)
  {
    assert unref[i] in unref;
    TakerIffRoom(st.table[p], working, unref[i]);
  }

  lemma FeasibleNext(begin: State, working: seq<Addr>, unref: seq<Addr>, i: nat, todo: set<nat>)
    requires i < |unref| && (forall a :: a in unref ==> a in begin.m1)
    requires FeasibleFor(begin, working, unref, i) && todo == Elements(begin.m1[unref[i]].pending)
    requires forall p :: p in todo ==> p < |begin.table|
    ensures FeasibleFor(begin, working, unref, i + 1) <==>
      forall p: nat :: p in todo ==>
        |begin.table[p]| >= 2 && Turns(begin, unref, i + 1, p) <= Room(begin.table[p], working)
  {
    forall p: nat ensures Turns(begin, unref, i + 1, p) == Turns(begin, unref, i, p) + if p in todo then 1 else 0 {
    }
  }

  /** When its turn comes a service can be drained iff its prefixes have enough room left from the start. */
  lemma DrainableIffFeasible(begin: State, st: State, working: seq<Addr>, unref: seq<Addr>, listed: seq<Addr>, i: nat)
    requires i < |unref| && (forall a :: a in unref ==> a in begin.m1 && a !in working)
    requires DrainedFrame(begin, st, working, unref, listed, i) && FeasibleFor(begin, working, unref, i)
    ensures unref[i] in st.m1
    ensures Drainable(st, working, unref[i]) <==> FeasibleFor(begin, working, unref, i + 1)
  {
    var u := unref[i];
    var todo := Elements(begin.m1[u].pending);
    assert u in st.m1 && st.m1[u].pending == begin.m1[u].pending;
    assert forall p :: p in todo ==> p < |st.table| && u in st.table[p] by {
      assert LinkedOne(st.table, u, st.m1[u]);
      assert forall p :: p in todo ==> p in HeldBy(st.table, u);
    }
    forall p: nat | p in todo
      ensures HasTaker(st.table[p], working, u) <==>
        |begin.table[p]| >= 2 && Turns(begin, unref, i + 1, p) <= Room(begin.table[p], working)
    {
      TakersIffRoom(begin, st, working, unref, i, p);
    }
    FeasibleNext(begin, working, unref, i, todo);
  }

  /** The list of the next service is still complete, and its prefixes are the ones treated meanwhile. */
  lemma DrainedList(begin: State, st0: State, st: State, working: seq<Addr>, unref: seq<Addr>,
                    listed: seq<Addr>, i: nat)
    requires i < |unref| && (forall a :: a in unref ==> a in begin.m1)
    requires st0.m1.Keys == begin.m1.Keys && DrainedServices(begin, st0, working, unref, i) && Linked(st0)
    requires unref[i] in st0.m1 && Draining(st0, st, working, unref[i], |st0.m1[unref[i]].pending|)
    ensures var todo := begin.m1[unref[i]].pending;
            st0.m1[unref[i]].pending == todo && NoDup(todo) && st.treated == st0.treated + Elements(todo)
  {
    var todo := st0.m1[unref[i]].pending;
    assert LinkedOne(st0.table, unref[i], st0.m1[unref[i]]);
    assert todo[..|todo|] == todo;
  }

  /** A service shares a prefix with an earlier one iff one of its prefixes was treated before its turn. */
  lemma ApartNext(st: State, list: seq<Addr>, i: nat)
    requires i < |list| && forall a :: a in list ==> a in st.m1
    ensures ApartFor(st, list, i + 1) <==>
      ApartFor(st, list, i) && Elements(st.m1[list[i]].pending) !! PendingOf(st, list, i)
  {
    var last := Elements(st.m1[list[i]].pending);
    if p :| p in last && p in PendingOf(st, list, i) {
      PendingAtOne(st, list, i, p);
      var j :| 0 <= j < i && p in st.m1[list[j]].pending;
      assert p in Elements(st.m1[list[j]].pending) && !ShareNone(st, list[j], list[i]);
    } else {
      forall j | 0 <= j < i ensures ShareNone(st, list[j], list[i]) {
        forall p | p in Elements(st.m1[list[j]].pending) ensures p !in last {
          PendingAtOne(st, list, i, p);
        }
      }
    }
  }

  /** The invariant of the drain loop, with its count and the note of a prefix met twice. */
  ghost predicate DrainLoop(begin: State, st: State, working: seq<Addr>, unref: seq<Addr>, listed: seq<Addr>,
                            i: nat, nb: nat, twice: bool)
    requires i <= |unref| && forall a :: a in unref ==> a in begin.m1
  {
    && DrainedFrame(begin, st, working, unref, listed, i)
    && FeasibleFor(begin, working, unref, i)
    && nb == HandOvers(begin, unref, i) && (twice <==> !ApartFor(begin, unref, i))
    && (Apart(begin, unref) ==> DrainedApart(begin, st, working, unref, i, nb))
  }

  /** One more service drained. */
  lemma DrainNth(begin: State, st0: State, st: State, working: seq<Addr>, unref: seq<Addr>,
                 listed: seq<Addr>, i: nat, nb: nat, twice: bool)
    requires i < |unref| && NoDup(unref) && (forall a :: a in unref ==> a in begin.m1 && a !in working)
    requires DrainLoop(begin, st0, working, unref, listed, i, nb, twice)
    requires Drained(begin, st0, st, working, unref, listed, unref[i], |st0.m1[unref[i]].pending|)
    requires Drainable(st0, working, unref[i])
    ensures DrainLoop(begin, st, working, unref, listed, i + 1, nb + |st0.m1[unref[i]].pending|,
                      twice || !(Elements(st0.m1[unref[i]].pending) !! st0.treated))
  {
    assert DrainedFrame(begin, st, working, unref, listed, i + 1) by {
      DrainNext(begin, st0, st, working, unref, listed, i);
    }
    assert FeasibleFor(begin, working, unref, i + 1) by {
      DrainableIffFeasible(begin, st0, working, unref, listed, i);
    }
    DrainedList(begin, st0, st, working, unref, listed, i);
    ApartNext(begin, unref, i);
    if Apart(begin, unref) {
      DrainNextApart(begin, st0, st, working, unref, i, nb);
    }
  }

  lemma {:induction false} PendingBounded(st: State, list: seq<Addr>, i: nat)
    requires Linked(st) && i <= |list| && forall a :: a in list ==> a in st.m1
    ensures forall p :: p in PendingOf(st, list, i) ==> p < PREFIXES
  {
    if i == 0 {
    } else {
      PendingBounded(st, list, i - 1);
      assert list[i - 1] in list && LinkedOne(st.table, list[i - 1], st.m1[list[i - 1]]);
    }
  }

  /** When the drain ends, every untreated prefix of a service available from the start is still pending. */
  lemma SettledAfterDrain(begin: State, st: State, working: seq<Addr>, unref: seq<Addr>, listed: seq<Addr>, avg: int)
    requires (forall a :: a in unref ==> a in begin.m1) && Complete(begin, working)
    requires DrainedFrame(begin, st, working, unref, listed, |unref|)
    ensures Settled(st, working, avg, Sources(begin, working))
  {
  }

  /** Two drained services that shared a prefix left it with two changes. */
  lemma SharedIsNotTracked(begin: State, st: State, working: seq<Addr>, unref: seq<Addr>)
    requires Linked(begin) && NoDup(unref) && (forall a :: a in unref ==> a in begin.m1)
    requires !Apart(begin, unref) && forall u :: u in unref ==> HeldBy(st.table, u) == {}
    ensures !Tracked(begin, st, working, unref)
  {
    var i, j :| 0 <= i < j < |unref| && !ShareNone(begin, unref[i], unref[j]);
    var a, b := unref[i], unref[j];
    NoDupAt(unref, i, j);
    var p :| p in Elements(begin.m1[a].pending) && p in Elements(begin.m1[b].pending);
    assert LinkedOne(begin.table, a, begin.m1[a]) && LinkedOne(begin.table, b, begin.m1[b]);
    assert p in HeldBy(begin.table, a) && p in HeldBy(begin.table, b);
    if Tracked(begin, st, working, unref) {
      assert a in unref && b in unref && p !in HeldBy(st.table, a) && p !in HeldBy(st.table, b);
      assert p in st.treated;
      var s, d :| HandedOver(begin.table[p], st.table[p], s, d, working, unref);
      ReplaceFirstMembers(begin.table[p], s, d);
      assert false;
    }
  }
}
