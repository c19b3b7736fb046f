/**
 The state of the META0 prefix allocator and the meaning of its steps
 (meta0v2/meta0_prefixassign.c): when a service may take a prefix over, what a move
 changes, and the facts every move keeps.
 */
module Meta0AssignModel {
  import opened Collections
  import opened Meta0Utils

  /** `struct meta0_assign_meta1_s`; an absent `assignPrefixes` array is an empty `pending`. */
  datatype Meta1 = Meta1(score: int, available: bool, used: bool, pending: seq<nat>)

  datatype State = State(table: Slots, m1: map<Addr, Meta1>, treated: set<nat>)

  // ----- which service may take a prefix

  /** A URL already in the vector speaks against `d`: same service, or same host without need. */
  predicate Conflicts(u: Addr, src: Option<Addr>, d: Addr, force: bool) {
    u == d || (!force && u.host == d.host && (src.None? || u.host != src.value.host))
  }

  /** The verdict of the candidate loop of `_select_dest_assign_m1` on one service. */
  predicate Accepts(urls: seq<Addr>, src: Option<Addr>, d: Addr, force: bool) {
    urls == [] ||
    ((exists u :: u in urls && Some(u) != src) &&
     forall u :: u in urls && Some(u) != src ==> !Conflicts(u, src, d, force))
  }

  /**
   With a source given, forcing accepts exactly the services outside a vector of at least
   two URLs: nothing can ever leave a prefix that has a single replica.
   */
  lemma ForcedAcceptance(urls: seq<Addr>, s: Addr, d: Addr)
    requires NoDup(urls) && s in urls && s != d
    ensures Accepts(urls, Some(s), d, true) <==> |urls| >= 2 && d !in urls
  {
    if |urls| >= 2 {
      if urls[0] == urls[1] {
        TwiceCounted(urls, 0, 1);
      }
      assert urls[0] in urls && urls[1] in urls && (urls[0] != s || urls[1] != s);
    }
  }

  lemma UnforcedIsForced(urls: seq<Addr>, src: Option<Addr>, d: Addr)
    requires Accepts(urls, src, d, false)
    ensures Accepts(urls, src, d, true)
  {
  }

  ghost function Members(list: seq<Addr>): set<Addr> {
    set a | a in list
  }

  lemma {:induction false} MembersSize(s: seq<Addr>)
    requires NoDup(s)
    ensures |Members(s)| == |s|
  {
    if s == [] {
    } else {
      TailOfNoDup(s);
      MembersSize(s[1..]);
      assert Members(s) == Members(s[1..]) + {s[0]};
    }
  }

  /** How many of the services are outside a vector. */
  ghost function Room(v: seq<Addr>, working: seq<Addr>): nat {
    |Members(working) - Members(v)|
  }

  /** Whoever takes a place over uses up one of the services outside the vector. */
  lemma RoomSpent(v: seq<Addr>, working: seq<Addr>, u: Addr, d: Addr)
    requires NoDup(v) && u in v && u !in working && d in working && d !in v
    ensures Room(ReplaceFirst(v, u, d), working) + 1 == Room(v, working)
  {
    ReplaceFirstMembers(v, u, d);
    var outside := Members(working) - Members(v);
    assert d in outside;
    assert Members(working) - Members(ReplaceFirst(v, u, d)) == outside - {d};
  }

  ghost function Hosts(urls: seq<Addr>): set<string> {
    set u | u in urls :: u.host
  }

  /** The hosts behind a vector once one of its URLs is set aside. */
  ghost function HostsBut(urls: seq<Addr>, s: Addr): set<string> {
    set u | u in urls && u != s :: u.host
  }

  lemma HostsAfterReplace(urls: seq<Addr>, s: Addr, d: Addr)
    requires NoDup(urls) && s in urls && d !in urls
    ensures Hosts(urls) == HostsBut(urls, s) + {s.host}
    ensures Hosts(ReplaceFirst(urls, s, d)) == HostsBut(urls, s) + {d.host}
  {
    ReplaceFirstMembers(urls, s, d);
    var urls' := ReplaceFirst(urls, s, d);
    forall h | h in HostsBut(urls, s) ensures h in Hosts(urls') {
      var u :| u in urls && u != s && u.host == h;
      assert u in urls';
    }
    assert d in urls';
  }

  /** An unforced replacement never lowers the number of distinct hosts behind a prefix. */
  lemma SpreadKept(urls: seq<Addr>, s: Addr, d: Addr)
    requires NoDup(urls) && s in urls && d !in urls && Accepts(urls, Some(s), d, false)
    ensures |Hosts(ReplaceFirst(urls, s, d))| >= |Hosts(urls)|
  {
    HostsAfterReplace(urls, s, d);
    if d.host in HostsBut(urls, s) {
      var u :| u in urls && u != s && u.host == d.host;
      assert !Conflicts(u, Some(s), d, false);
    }
  }

  /**
   With a source given, a service is accepted without force iff it is outside a vector of at least two
   URLs and stays on the host of the source, or comes on a host the other URLs do not use.
   */
  lemma UnforcedAcceptance(urls: seq<Addr>, s: Addr, d: Addr)
    requires NoDup(urls) && s in urls && s != d
    ensures Accepts(urls, Some(s), d, false) <==>
      |urls| >= 2 && d !in urls && (d.host == s.host || d.host !in HostsBut(urls, s))
  {
    ForcedAcceptance(urls, s, d);
    if Accepts(urls, Some(s), d, false) {
      UnforcedIsForced(urls, Some(s), d);
      assert forall u :: u in urls && u != s ==> !Conflicts(u, Some(s), d, false);
    } else if |urls| >= 2 && d !in urls {
      assert Accepts(urls, Some(s), d, true);
      var u :| u in urls && u != s && Conflicts(u, Some(s), d, false);
      assert u.host in HostsBut(urls, s);
    }
  }

  // ----- the order of the working list

  ghost predicate ByScore(lst: seq<Addr>, m1: map<Addr, Meta1>) {
    && (forall a :: a in lst ==> a in m1)
    && forall i, j :: 0 <= i < j < |lst| ==> m1[lst[i]].score >= m1[lst[j]].score
  }

  lemma ConsByScore(x: Addr, lst: seq<Addr>, m1: map<Addr, Meta1>)
    requires x in m1 && ByScore(lst, m1)
    requires forall y :: y in lst ==> m1[x].score >= m1[y].score
    ensures ByScore([x] + lst, m1)
  {
  }

  lemma TailByScore(lst: seq<Addr>, m1: map<Addr, Meta1>)
    requires ByScore(lst, m1) && lst != []
    ensures ByScore(lst[1..], m1) && lst[0] in m1
    ensures forall y :: y in lst[1..] ==> m1[lst[0]].score >= m1[y].score
  {
  }

  function InsertByScore(a: Addr, lst: seq<Addr>, m1: map<Addr, Meta1>): (r: seq<Addr>)
    requires a in m1 && ByScore(lst, m1)
    ensures ByScore(r, m1)
    ensures multiset(r) == multiset{a} + multiset(lst)
    ensures forall x :: x in r <==> x == a || x in lst
  {
    if lst == [] then
      [a]
    else
      TailByScore(lst, m1);
      assert lst == [lst[0]] + lst[1..];
      if m1[a].score >= m1[lst[0]].score then
        ConsByScore(a, lst, m1);
        [a] + lst
      else
        var r := InsertByScore(a, lst[1..], m1);
        ConsByScore(lst[0], r, m1);
        [lst[0]] + r
  }

  /** `g_list_sort` with `meta0_assign_sort_by_score`: highest score first. */
  function SortByScore(lst: seq<Addr>, m1: map<Addr, Meta1>): (r: seq<Addr>)
    requires forall a :: a in lst ==> a in m1
    ensures ByScore(r, m1) && multiset(r) == multiset(lst)
    ensures forall a :: a in r <==> a in lst
  {
    if lst == [] then []
    else
      var r := InsertByScore(lst[0], SortByScore(lst[1..], m1), m1);
      assert lst == [lst[0]] + lst[1..];
      r
  }

  /** The services of the list that have the given score, in the order of the list. */
  ghost function OfScore(lst: seq<Addr>, m1: map<Addr, Meta1>, score: int): seq<Addr> {
    if lst == [] then []
    else (if lst[0] in m1 && m1[lst[0]].score == score then [lst[0]] else []) + OfScore(lst[1..], m1, score)
  }

  lemma ConsOfScore(x: Addr, lst: seq<Addr>, m1: map<Addr, Meta1>, score: int)
    requires x in m1
    ensures OfScore([x] + lst, m1, score) == (if m1[x].score == score then [x] else []) + OfScore(lst, m1, score)
  {
    assert ([x] + lst)[1..] == lst;
  }

  lemma LowerLater(x: Addr, a: Addr, r: seq<Addr>, rest: seq<Addr>, m1: map<Addr, Meta1>, score: int)
    requires x in m1 && a in m1 && m1[a].score < m1[x].score
    requires OfScore(r, m1, score) == (if m1[a].score == score then [a] else []) + OfScore(rest, m1, score)
    ensures OfScore([x] + r, m1, score) ==
            (if m1[a].score == score then [a] else []) + OfScore([x] + rest, m1, score)
  {
    ConsOfScore(x, r, m1, score);
    ConsOfScore(x, rest, m1, score);
  }

  lemma {:induction false} InsertIsStable(a: Addr, lst: seq<Addr>, m1: map<Addr, Meta1>, score: int)
    requires a in m1 && ByScore(lst, m1)
    ensures OfScore(InsertByScore(a, lst, m1), m1, score) ==
      (if m1[a].score == score then [a] else []) + OfScore(lst, m1, score)
  {
    if lst == [] || m1[a].score >= m1[lst[0]].score {
      ConsOfScore(a, lst, m1, score);
      assert InsertByScore(a, lst, m1) == [a] + lst;
    } else {
      TailByScore(lst, m1);
      InsertIsStable(a, lst[1..], m1, score);
      LowerLater(lst[0], a, InsertByScore(a, lst[1..], m1), lst[1..], m1, score);
      assert lst == [lst[0]] + lst[1..];
    }
  }

  /** The sort is stable: services of one score keep their order. */
  lemma {:induction false} SortIsStable(lst: seq<Addr>, m1: map<Addr, Meta1>, score: int)
    requires forall a :: a in lst ==> a in m1
    ensures OfScore(SortByScore(lst, m1), m1, score) == OfScore(lst, m1, score)
  {
    if lst == [] {
    } else {
      SortIsStable(lst[1..], m1, score);
      InsertIsStable(lst[0], SortByScore(lst[1..], m1), m1, score);
    }
  }

  // ----- sums over lists of services

  /** What is added up over the services: scores, prefixes left to treat, distances from an average. */
  datatype Weight = Score | Left | Gap(avg: int)

  ghost function Weigh(m1: map<Addr, Meta1>, a: Addr, w: Weight): int {
    if a !in m1 then 0 else
    match w
    case Score => m1[a].score
    case Left => |m1[a].pending|
    case Gap(avg) => if m1[a].score < avg then avg - m1[a].score else m1[a].score - avg
  }

  ghost function Sum(list: seq<Addr>, m1: map<Addr, Meta1>, w: Weight): int {
    if list == [] then 0 else Weigh(m1, list[0], w) + Sum(list[1..], m1, w)
  }

  lemma {:induction false} SumShift(list: seq<Addr>, m: map<Addr, Meta1>, m': map<Addr, Meta1>, w: Weight, s: Addr)
    requires NoDup(list)
    requires forall a :: a in list && a != s ==> Weigh(m', a, w) == Weigh(m, a, w)
    ensures Sum(list, m', w) == Sum(list, m, w) + if s in list then Weigh(m', s, w) - Weigh(m, s, w) else 0
  {
    if list == [] {
    } else {
      TailOfNoDup(list);
      SumShift(list[1..], m, m', w, s);
    }
  }

  lemma SumShift2(list: seq<Addr>, m: map<Addr, Meta1>, m': map<Addr, Meta1>, w: Weight, s: Addr, d: Addr)
    requires NoDup(list) && s != d && s in list && d in list && s in m && s in m'
    requires forall a :: a in list && a != s && a != d ==> Weigh(m', a, w) == Weigh(m, a, w)
    ensures Sum(list, m', w) ==
            Sum(list, m, w) + (Weigh(m', s, w) - Weigh(m, s, w)) + (Weigh(m', d, w) - Weigh(m, d, w))
  {
    var mid := m[s := m'[s]];
    SumShift(list, m, mid, w, s);
    SumShift(list, mid, m', w, d);
  }

  lemma {:induction false} LeftIsNat(list: seq<Addr>, m: map<Addr, Meta1>)
    ensures Sum(list, m, Left) >= 0
  {
    if list == [] {
    } else {
      LeftIsNat(list[1..], m);
    }
  }

  // ----- the link between scores, pending lists and the table

  ghost predicate LinkedOne(t: Slots, a: Addr, m: Meta1) {
    && m.score == |HeldBy(t, a)|
    && NoDup(m.pending)
    && forall p :: p in m.pending ==> p in HeldBy(t, a)
  }

  ghost predicate Linked(st: State) {
    && |st.table| == PREFIXES
    && DistinctSlots(st.table)
    && forall a :: a in st.m1 ==> LinkedOne(st.table, a, st.m1[a])
  }

  /** What no step of a run changes: the services, their flags of use, the replica counts. */
  ghost predicate SameShape(st0: State, st: State) {
    && st.m1.Keys == st0.m1.Keys
    && (forall a :: a in st.m1 ==> st.m1[a].used == st0.m1[a].used)
    && |st.table| == |st0.table|
    && forall p :: 0 <= p < |st.table| ==> |st.table[p]| == |st0.table[p]|
  }

  lemma SameShapeTwice(st0: State, st1: State, st2: State)
    requires SameShape(st0, st1) && SameShape(st1, st2)
    ensures SameShape(st0, st2)
  {
  }

  // ----- steps

  function RemoveFirst(m: Meta1): Meta1
    requires m.pending != []
  {
    m.(pending := m.pending[1..], available := m.available && |m.pending| > 1)
  }

  function Decrease(m: Meta1, avg: int): Meta1 {
    m.(score := m.score - 1, available := m.available && m.score - 1 > avg)
  }

  /** `_replace`: the first pending prefix of `s` goes to `d`. */
  function Move(st: State, s: Addr, d: Addr, avg: int): State
    requires s in st.m1 && d in st.m1 && s != d
    requires st.m1[s].pending != [] && st.m1[s].pending[0] < |st.table|
  {
    var p := st.m1[s].pending[0];
    if s in st.table[p] then
      State(st.table[p := ReplaceFirst(st.table[p], s, d)],
            st.m1[s := Decrease(RemoveFirst(st.m1[s]), avg)][d := st.m1[d].(score := st.m1[d].score + 1)],
            st.treated + {p})
    else
      st
  }

  /** `_remove_first_prefix_to_assign_meta1`. */
  function Drop(st: State, s: Addr): State
    requires s in st.m1 && st.m1[s].pending != []
  {
    st.(m1 := st.m1[s := RemoveFirst(st.m1[s])])
  }

  /** `_select_prefix`: drops the leading prefixes that were already treated. */
  function SkipTreated(pending: seq<nat>, treated: set<nat>): (r: seq<nat>)
    ensures |r| <= |pending| && multiset(r) <= multiset(pending)
    ensures forall p :: p in pending && p !in treated ==> p in r
    ensures r != [] ==> r[0] !in treated
  {
    if pending == [] || pending[0] !in treated then
      pending
    else
      assert pending == [pending[0]] + pending[1..];
      SkipTreated(pending[1..], treated)
  }

  /** What asking `a` for a source prefix does to it. */
  function Probe(st: State, a: Addr): State
    requires a in st.m1
  {
    var r := SkipTreated(st.m1[a].pending, st.treated);
    st.(m1 := st.m1[a := st.m1[a].(pending := r, available := st.m1[a].available && r != [])])
  }

  lemma HeldAfterMove(t: Slots, p: nat, s: Addr, d: Addr, a: Addr)
    requires p < |t| && NoDup(t[p]) && s in t[p] && d !in t[p]
    ensures var t' := t[p := ReplaceFirst(t[p], s, d)];
            HeldBy(t', a) == if a == s then HeldBy(t, a) - {p}
                             else if a == d then HeldBy(t, a) + {p} else HeldBy(t, a)
  {
    ReplaceFirstMembers(t[p], s, d);
    var t' := t[p := ReplaceFirst(t[p], s, d)];
    assert forall q :: 0 <= q < |t| && q != p ==> t'[q] == t[q];
  }

  /** `s` has a pending prefix that `d` does not hold. */
  ghost predicate CanMove(st: State, s: Addr, d: Addr) {
    && s in st.m1 && d in st.m1 && s != d
    && st.m1[s].pending != [] && st.m1[s].pending[0] < |st.table|
    && d !in st.table[st.m1[s].pending[0]]
  }

  lemma MoveLinksOne(st: State, s: Addr, d: Addr, avg: int, a: Addr)
    requires Linked(st) && CanMove(st, s, d) && a in st.m1
    ensures var st' := Move(st, s, d, avg);
            && a in st'.m1 && LinkedOne(st'.table, a, st'.m1[a])
            && HeldBy(st'.table, a) == (if a == s then HeldBy(st.table, a) - {st.m1[s].pending[0]}
                                        else if a == d then HeldBy(st.table, a) + {st.m1[s].pending[0]}
                                        else HeldBy(st.table, a))
  {
    var p := st.m1[s].pending[0];
    assert LinkedOne(st.table, s, st.m1[s]) && LinkedOne(st.table, a, st.m1[a]);
    assert p in st.m1[s].pending && p in HeldBy(st.table, s);
    HeldAfterMove(st.table, p, s, d, a);
    TailOfNoDup(st.m1[s].pending);
  }

  /** A move keeps the link and the shape, and shifts exactly one point of score. */
  lemma MoveKeepsLink(st: State, s: Addr, d: Addr, avg: int)
    requires Linked(st) && CanMove(st, s, d)
    ensures var st' := Move(st, s, d, avg);
            && Linked(st') && SameShape(st, st')
            && st'.treated == st.treated + {st.m1[s].pending[0]}
            && st'.m1[s].score == st.m1[s].score - 1 && st'.m1[d].score == st.m1[d].score + 1
            && st'.m1[s].pending == st.m1[s].pending[1..]
            && (forall a :: a in st.m1 && a != s && a != d ==> st'.m1[a] == st.m1[a])
  {
    var p := st.m1[s].pending[0];
    assert p in st.m1[s].pending && p in HeldBy(st.table, s);
    ReplaceFirstMembers(st.table[p], s, d);
    var st' := Move(st, s, d, avg);
    assert st'.m1.Keys == st.m1.Keys;
    forall a | a in st'.m1 ensures LinkedOne(st'.table, a, st'.m1[a]) {
      MoveLinksOne(st, s, d, avg, a);
    }
  }

  lemma MoveElsewhere(st: State, s: Addr, d: Addr, avg: int, q: nat)
    requires CanMove(st, s, d) && q < |st.table| && q != st.m1[s].pending[0]
    ensures |Move(st, s, d, avg).table| == |st.table| && Move(st, s, d, avg).table[q] == st.table[q]
  {
  }

  lemma DropKeepsLink(st: State, s: Addr)
    requires Linked(st) && s in st.m1 && st.m1[s].pending != []
    ensures Linked(Drop(st, s)) && SameShape(st, Drop(st, s))
  {
    TailOfNoDup(st.m1[s].pending);
    assert LinkedOne(st.table, s, st.m1[s]);
  }

  lemma ProbeKeepsLink(st: State, a: Addr)
    requires Linked(st) && a in st.m1
    ensures Linked(Probe(st, a)) && SameShape(st, Probe(st, a))
  {
    var r := SkipTreated(st.m1[a].pending, st.treated);
    assert LinkedOne(st.table, a, st.m1[a]);
    forall p | p in r ensures p in st.m1[a].pending {
      assert p in multiset(r);
    }
  }

  /** A move conserves the total score of the services. */
  lemma MoveConserves(st: State, s: Addr, d: Addr, avg: int, list: seq<Addr>)
    requires Linked(st) && CanMove(st, s, d)
    requires NoDup(list) && s in list && d in list
    ensures Sum(list, Move(st, s, d, avg).m1, Score) == Sum(list, st.m1, Score)
  {
    MoveKeepsLink(st, s, d, avg);
    SumShift2(list, st.m1, Move(st, s, d, avg).m1, Score, s, d);
  }

  /** A move from above to below the average lowers the imbalance by exactly two. */
  lemma MoveLowersImbalance(st: State, s: Addr, d: Addr, avg: int, list: seq<Addr>)
    requires Linked(st) && CanMove(st, s, d)
    requires NoDup(list) && s in list && d in list
    requires st.m1[d].score < avg < st.m1[s].score
    ensures Sum(list, Move(st, s, d, avg).m1, Gap(avg)) == Sum(list, st.m1, Gap(avg)) - 2
  {
    MoveKeepsLink(st, s, d, avg);
    SumShift2(list, st.m1, Move(st, s, d, avg).m1, Gap(avg), s, d);
  }

  // ----- what a whole run does to one prefix

  /** `v` is `v0` with one URL handed to a working service, on the terms of the run. */
  ghost predicate HandedOver(v0: seq<Addr>, v: seq<Addr>, s: Addr, d: Addr,
                             working: seq<Addr>, drained: seq<Addr>)
  {
    && s in v0 && d in working && d !in v0 && v == ReplaceFirst(v0, s, d)
    && Accepts(v0, Some(s), d, true)
    && (Accepts(v0, Some(s), d, false) ||
        (s in drained && forall e :: e in working ==> !Accepts(v0, Some(s), e, false)))
  }

  ghost predicate MovedOnce(v0: seq<Addr>, v: seq<Addr>, working: seq<Addr>, drained: seq<Addr>) {
    exists s, d :: HandedOver(v0, v, s, d, working, drained)
  }

  /** One replica at most differs, and hosts are lost only where a drain had no better choice. */
  lemma MovedOnceMeaning(v0: seq<Addr>, v: seq<Addr>, working: seq<Addr>, drained: seq<Addr>)
    requires NoDup(v0) && MovedOnce(v0, v, working, drained)
    ensures |v| == |v0| && exists i :: 0 <= i < |v0| && v == v0[i := v[i]]
    ensures |Hosts(v)| < |Hosts(v0)| ==>
      exists s :: s in drained && s in v0 && forall e :: e in working ==> !Accepts(v0, Some(s), e, false)
  {
    var s, d :| HandedOver(v0, v, s, d, working, drained);
    var i := IndexOf(v0, s);
    assert v == v0[i := v[i]];
    if Accepts(v0, Some(s), d, false) {
      SpreadKept(v0, s, d);
    }
  }

  /** Untreated prefixes keep their vector. */
  ghost predicate Untouched(st0: State, st: State) {
    && |st.table| == |st0.table|
    && forall p: nat :: p < |st.table| && p !in st.treated ==> st.table[p] == st0.table[p]
  }

  /** Every prefix was either left alone or handed over once since `st0`. */
  ghost predicate Tracked(st0: State, st: State, working: seq<Addr>, drained: seq<Addr>) {
    && Untouched(st0, st)
    && forall p: nat :: p < |st.table| && p in st.treated ==> MovedOnce(st0.table[p], st.table[p], working, drained)
  }

  // ----- when the rebalancing has nothing left to do

  /** No working service below the average would take prefix `p` from `a`. */
  ghost predicate NoTaker(st: State, working: seq<Addr>, avg: int, a: Addr, p: nat)
    requires p < |st.table|
  {
    forall d :: d in working && d in st.m1 && st.m1[d].score < avg ==> !Accepts(st.table[p], Some(a), d, false)
  }

  /** While `a` is above the average, its untreated prefixes are pending or have no taker. */
  ghost predicate SettledOne(st: State, working: seq<Addr>, avg: int, a: Addr)
    requires a in st.m1
  {
    st.m1[a].score > avg ==>
      && (!st.m1[a].available ==> st.m1[a].pending == [])
      && forall p :: p in HeldBy(st.table, a) && p !in st.treated ==>
        p in st.m1[a].pending || NoTaker(st, working, avg, a, p)
  }

  ghost predicate Settled(st: State, working: seq<Addr>, avg: int, sources: set<Addr>) {
    forall a :: a in sources ==> a in st.m1 && SettledOne(st, working, avg, a)
  }

  /** The services a rebalancing may take prefixes from. */
  ghost function Sources(st: State, working: seq<Addr>): set<Addr> {
    set a | a in working && a in st.m1 && st.m1[a].available
  }

  /** No untreated prefix of an overloaded source could still go to a service below the average. */
  ghost predicate Exhausted(st: State, working: seq<Addr>, avg: int, sources: set<Addr>) {
    forall a, p ::
      a in sources && a in st.m1 && st.m1[a].score > avg && p in HeldBy(st.table, a) && p !in st.treated ==>
        NoTaker(st, working, avg, a, p)
  }

  /** A move between working services keeps every other source settled: takers only disappear. */
  lemma MoveSettles(st: State, s: Addr, d: Addr, avg: int, working: seq<Addr>, sources: set<Addr>)
    requires Linked(st) && CanMove(st, s, d) && Settled(st, working, avg, sources)
    requires st.m1[d].score < avg < st.m1[s].score
    ensures Settled(Move(st, s, d, avg), working, avg, sources)
  {
  }

  lemma DropSettles(st: State, s: Addr, avg: int, working: seq<Addr>, sources: set<Addr>)
    requires Linked(st) && s in st.m1 && st.m1[s].pending != [] && st.m1[s].pending[0] < |st.table|
    requires Settled(st, working, avg, sources)
    requires NoTaker(st, working, avg, s, st.m1[s].pending[0])
    ensures Settled(Drop(st, s), working, avg, sources)
  {
  }

  lemma ProbeSettles(st: State, s: Addr, avg: int, working: seq<Addr>, sources: set<Addr>)
    requires Linked(st) && s in st.m1 && Settled(st, working, avg, sources)
    ensures Settled(Probe(st, s), working, avg, sources)
  {
  }

  /** One more tracked move, of a prefix not treated before. */
  lemma MoveTracks(st0: State, st: State, s: Addr, d: Addr, avg: int, working: seq<Addr>, drained: seq<Addr>)
    requires Linked(st) && CanMove(st, s, d) && Untouched(st0, st)
    requires HandedOver(st.table[st.m1[s].pending[0]], Move(st, s, d, avg).table[st.m1[s].pending[0]],
                        s, d, working, drained)
    ensures Untouched(st0, Move(st, s, d, avg))
    ensures Tracked(st0, st, working, drained) && st.m1[s].pending[0] !in st.treated ==>
      Tracked(st0, Move(st, s, d, avg), working, drained)
  {
  }

  lemma {:induction false} BoundedSize(s: set<nat>, n: nat)
    requires forall p :: p in s ==> p < n
    ensures |s| <= n
  {
    if n == 0 {
      assert s == {};
    } else {
      BoundedSize(s - {n - 1}, n - 1);
    }
  }
}
