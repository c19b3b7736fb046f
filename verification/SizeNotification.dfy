/**
 The notification of modified container sizes (meta2v2/meta2_backend.c): the table of
 modified containers is swapped, grouped by prefix, sent, and put back where it failed.
 */
module SizeNotification {

  /** A container id, with the two-byte prefix it starts with. */
  datatype Cid = Cid(prefix: nat, rest: nat)

  datatype ContainerInfo = ContainerInfo(id: Cid, size: int)

  type Groups = map<nat, seq<ContainerInfo>>

  ghost predicate InGroup(g: Groups, x: ContainerInfo) {
    x.id.prefix in g && x in g[x.id.prefix]
  }

  /** `g` holds every entry of `table` once, under its prefix, and nothing else. */
  ghost predicate Grouped(table: map<Cid, int>, g: Groups) {
    && (forall p, x :: p in g && x in g[p] ==> x.id.prefix == p)
    && (forall x :: InGroup(g, x) <==> x.id in table && table[x.id] == x.size)
    && (forall p, x :: p in g ==> multiset(g[p])[x] <= 1)
    && (forall p :: p in g ==> g[p] != [])
  }

  /** The table with a size recorded: the latest one wins. */
  function Recorded(table: map<Cid, int>, c: Cid, size: int): map<Cid, int> {
    table[c := size]
  }

  /** The table with a size put back: one recorded in the meantime is kept. */
  function Restored(table: map<Cid, int>, x: ContainerInfo): map<Cid, int> {
    if x.id in table then table else table[x.id := x.size]
  }

  /** `_add_to_update_container_ht`. */
  function AddToGroup(g: Groups, x: ContainerInfo): Groups {
    g[x.id.prefix := [x] + if x.id.prefix in g then g[x.id.prefix] else []]
  }

  lemma GroupOneMore(table: map<Cid, int>, g: Groups, x: ContainerInfo)
    requires Grouped(table, g) && x.id !in table
    ensures Grouped(table[x.id := x.size], AddToGroup(g, x))
  {
  }

  /** The replica asked at the `k`-th of `nb` tries, starting from a random one and wrapping around. */
  function TryAt(start: nat, k: nat, nb: nat): nat
    requires start < nb && k <= nb
  {
    if start + k < nb then start + k else start + k - nb
  }

  lemma WrapAround(pick: nat, nb: nat)
    requires pick < nb
    ensures (pick + 1) % nb == if pick + 1 == nb then 0 else pick + 1
  {
  }

  /** What becomes of a list: accepted, refused by all, or the process dies on a missing META1. */
  datatype Sending = Accepted | Refused | Crash

  /** The META1 exists and refuses. */
  ghost predicate Refuses(answers: seq<bool>, i: nat) {
    i < |answers| && !answers[i]
  }

  /** The first `k` META1s tried exist and refuse. */
  ghost predicate RefusedBefore(answers: seq<bool>, start: nat, k: nat, nb: nat)
    requires start < nb && k <= nb
  {
    forall j :: 0 <= j < k ==> Refuses(answers, TryAt(start, j, nb))
  }

  /** The first META1 tried that does not refuse is missing; or there is no replication to go round. */
  ghost predicate Crashes(answers: seq<bool>, start: nat, nb: nat)
    requires start == 0 || start < nb
  {
    nb == 0 || exists k :: 0 <= k < nb && RefusedBefore(answers, start, k, nb) && TryAt(start, k, nb) >= |answers|
  }

  ghost predicate AllRefuse(answers: seq<bool>, nb: nat) {
    nb > 0 && forall i :: 0 <= i < nb ==> Refuses(answers, i)
  }

  /** Going round once asks every META1. */
  lemma AllTried(answers: seq<bool>, start: nat, nb: nat)
    requires start < nb
    ensures RefusedBefore(answers, start, nb, nb) <==> AllRefuse(answers, nb)
  {
    if RefusedBefore(answers, start, nb, nb) {
      forall i: nat | i < nb ensures Refuses(answers, i) {
        var k: nat := if i >= start then i - start else i + nb - start;
        assert TryAt(start, k, nb) == i;
      }
    }
    if AllRefuse(answers, nb) {
      forall j: nat | j < nb ensures Refuses(answers, TryAt(start, j, nb)) {
        assert TryAt(start, j, nb) < nb;
      }
    }
  }

  /** The first META1 that does not refuse decides. */
  lemma Decides(answers: seq<bool>, start: nat, k: nat, nb: nat)
    requires start < nb && k < nb && RefusedBefore(answers, start, k, nb) && !Refuses(answers, TryAt(start, k, nb))
    ensures !AllRefuse(answers, nb) && (Crashes(answers, start, nb) <==> TryAt(start, k, nb) >= |answers|)
    ensures 0 < nb <= |answers| ==> exists i :: 0 <= i < nb && answers[i]
  {
    assert TryAt(start, k, nb) < nb;
    if Crashes(answers, start, nb) {
      var j :| 0 <= j < nb && RefusedBefore(answers, start, j, nb) && TryAt(start, j, nb) >= |answers|;
      assert !Refuses(answers, TryAt(start, j, nb));
      assert j == k;
    }
  }

  lemma NobodyDecides(answers: seq<bool>, start: nat, nb: nat)
    requires start < nb && RefusedBefore(answers, start, nb, nb)
    ensures AllRefuse(answers, nb) && !Crashes(answers, start, nb)
    ensures forall i :: 0 <= i < nb && i < |answers| ==> !answers[i]
  {
    AllTried(answers, start, nb);
    forall j: nat | j < nb ensures TryAt(start, j, nb) < |answers| {
      assert Refuses(answers, TryAt(start, j, nb));
    }
    forall i: nat | i < nb && i < |answers| ensures !answers[i] {
      assert Refuses(answers, i);
    }
  }

  /**
   The retry loop of `_meta2_backend_process_containers_to_update`. `answers[i]` tells whether the
   `i`-th META1 of the prefix accepts the list; `nb` is read from another prefix, so there may be
   fewer of them, or more.
   */
  method SendWithRetry(answers: seq<bool>, nb: nat, start: nat) returns (r: Sending, tried: seq<nat>)
    requires start == 0 || start < nb
    ensures r.Crash? <==> Crashes(answers, start, nb)
    ensures r.Refused? <==> AllRefuse(answers, nb)
    ensures 0 < nb <= |answers| ==> (r.Accepted? <==> exists i :: 0 <= i < nb && answers[i])
    ensures r.Accepted? ==>
      && 1 <= |tried| <= nb && RefusedBefore(answers, start, |tried| - 1, nb)
      && tried[|tried| - 1] < |answers| && answers[tried[|tried| - 1]]
    ensures nb > 0 ==> |tried| <= nb && forall k :: 0 <= k < |tried| ==> tried[k] == TryAt(start, k, nb)
  {
    var pick: nat, tries: nat := start, 0;
    tried := [];
    while true
      invariant |tried| == tries && (nb > 0 ==> tries < nb && pick == TryAt(start, tries, nb))
      invariant nb > 0 ==> RefusedBefore(answers, start, tries, nb)
      invariant nb > 0 ==> forall k :: 0 <= k < |tried| ==> tried[k] == TryAt(start, k, nb)
      decreases nb - tries
    {
      if pick >= |answers| {
        if nb > 0 {
          Decides(answers, start, tries, nb);
        }
        return Crash, tried;
      }
      tried := tried + [pick];
      tries := tries + 1;
      var ok := answers[pick];
      if nb == 0 {
        return Crash, tried;
      }
      WrapAround(pick, nb);
      pick := (pick + 1) % nb;
      if ok {
        Decides(answers, start, tries - 1, nb);
        return Accepted, tried;
      }
      if tries >= nb {
        NobodyDecides(answers, start, nb);
        return Refused, tried;
      }
    }
  }

  class Backend {
    var modified: map<Cid, int>

    constructor ()
      ensures modified == map[]
    {
      modified := map[];
    }

    /** `meta2_backend_add_modified_container`: the latest size wins. */
    method AddModified(c: Cid, size: int)
      modifies this
      ensures modified == Recorded(old(modified), c, size)
    {
      modified := modified[c := size];
    }

    /** `_meta2_backend_renew_modified_containers`. */
    method Renew() returns (ht: map<Cid, int>)
      modifies this
      ensures ht == old(modified) && modified == map[]
    {
      ht := modified;
      modified := map[];
    }

    /** `_add_cinfo_to_modified_containers`: a size recorded in the meantime is kept. */
    method AddBack(x: ContainerInfo)
      modifies this
      ensures modified == Restored(old(modified), x)
    {
      if x.id !in modified {
        modified := modified[x.id := x.size];
      }
    }

    /** Groups the swapped entries, visited in any order. */
    static method Group(table: map<Cid, int>) returns (g: Groups)
      ensures Grouped(table, g)
    {
      g := map[];
      var left := table.Keys;
      ghost var done: map<Cid, int> := map[];
      while left != {}
        invariant left <= table.Keys && done.Keys == table.Keys - left
        invariant forall c :: c in done ==> done[c] == table[c]
        invariant Grouped(done, g)
        decreases |left|
      {
        var c :| c in left;
        GroupOneMore(done, g, ContainerInfo(c, table[c]));
        g := AddToGroup(g, ContainerInfo(c, table[c]));
        done := done[c := table[c]];
        left := left - {c};
      }
      assert done == table;
    }

    /** Puts a refused list back. */
    method PutBack(list: seq<ContainerInfo>, ghost table: map<Cid, int>)
      requires forall x :: x in list ==> x.id in table && table[x.id] == x.size
      modifies this
      ensures modified.Keys == old(modified).Keys + Ids(list)
      ensures forall c :: c in modified ==> modified[c] == if c in old(modified) then old(modified)[c] else table[c]
    {
      for i := 0 to |list|
        invariant modified.Keys == old(modified).Keys + Ids(list[..i])
        invariant forall c :: c in Ids(list[..i]) ==> c in table
        invariant forall c :: c in modified ==> modified[c] == if c in old(modified) then old(modified)[c] else table[c]
      {
        assert list[..i + 1] == list[..i] + [list[i]];
        assert Ids(list[..i + 1]) == Ids(list[..i]) + {list[i].id};
        AddBack(list[i]);
      }
      assert list[..|list|] == list;
    }

    /**
     One uninterrupted notification: unless a missing META1 ends the process, what remains recorded is
     exactly what every META1 of its prefix refused, with its size. `answers[p]` are the META1s of
     prefix `p`, `starts[p]` the random first choice, `nb` the replication read from the first prefix.
     */
    method Notify(answers: nat -> seq<bool>, nb: nat, starts: nat -> nat) returns (alive: bool)
      requires forall p :: starts(p) == 0 || starts(p) < nb
      modifies this
      ensures alive <==> forall c :: c in old(modified) ==> !Crashes(answers(c.prefix), starts(c.prefix), nb)
      ensures alive ==> modified == RefusedSizes(old(modified), answers, nb)
    {
      ghost var table := modified;
      var ht := Renew();
      var g := Group(ht);
      forall c | c in table ensures c.prefix in g {
        assert InGroup(g, ContainerInfo(c, table[c]));
      }
      var left := g.Keys;
      while left != {}
        invariant left <= g.Keys
        invariant forall c :: c in table && c.prefix !in left ==> !Crashes(answers(c.prefix), starts(c.prefix), nb)
        invariant forall c :: c in modified <==> c in table && c.prefix !in left && AllRefuse(answers(c.prefix), nb)
        invariant forall c :: c in modified ==> c in table && modified[c] == table[c]
        decreases |left|
      {
        var p :| p in left;
        var r, _ := SendWithRetry(answers(p), nb, starts(p));
        forall x | x in g[p] ensures x.id in table && table[x.id] == x.size && x.id.prefix == p {
          assert InGroup(g, x);
        }
        forall c | c in table && c.prefix == p ensures c in Ids(g[p]) {
          assert InGroup(g, ContainerInfo(c, table[c]));
        }
        if r.Crash? {
          assert g[p][0].id in table && g[p][0].id.prefix == p;
          return false;
        }
        if r.Refused? {
          PutBack(g[p], table);
        }
        left := left - {p};
      }
      alive := true;
    }
  }

  ghost function Ids(list: seq<ContainerInfo>): set<Cid> {
    set x | x in list :: x.id
  }

  ghost function RefusedSizes(table: map<Cid, int>, answers: nat -> seq<bool>, nb: nat): map<Cid, int> {
    map c | c in table && AllRefuse(answers(c.prefix), nb) :: table[c]
  }
}

/**
 The same notification with size writers running at any time: a state machine whose steps are
 the sections under the lock and the outcomes of the requests.
 */
module NotificationProtocol {
  import opened SizeNotification

  /** A recorded size, with its place in the order of all recordings. */
  datatype Write = Write(size: int, stamp: nat)

  /**
   `pending` is the table, `flight` what the notifier has taken out and not settled, `back` what
   was refused and waits to be put back; `latest` and `accepted` are history: the last size
   recorded for a container and the last one a META1 accepted.
   */
  datatype State = State(pending: map<Cid, Write>, flight: map<Cid, Write>, back: map<Cid, Write>,
                         latest: map<Cid, Write>, accepted: map<Cid, Write>, clock: nat)

  datatype Step =
    | Record(c: Cid, size: int)
    | Swap
    | Accept(batch: set<Cid>)
    | Refuse(batch: set<Cid>)
    | PutBack(c: Cid)

  ghost predicate Init(st: State) {
    st == State(map[], map[], map[], map[], map[], st.clock)
  }

  /** Only one notifier runs: it swaps once everything it took out before is settled. */
  ghost predicate Enabled(st: State, step: Step) {
    match step
    case Record(_, _) => true
    case Swap => st.flight == map[] && st.back == map[]
    case Accept(batch) => batch <= st.flight.Keys
    case Refuse(batch) => batch <= st.flight.Keys
    case PutBack(c) => c in st.back
  }

  ghost function Take(m: map<Cid, Write>, batch: set<Cid>): map<Cid, Write> {
    map c | c in m && c in batch :: m[c]
  }

  ghost function Next(st: State, step: Step): State
    requires Enabled(st, step)
  {
    match step
    case Record(c, size) =>
      var w := Write(size, st.clock);
      st.(pending := st.pending[c := w], latest := st.latest[c := w], clock := st.clock + 1)
    case Swap => st.(pending := map[], flight := st.pending)
    case Accept(batch) => st.(flight := st.flight - batch, accepted := st.accepted + Take(st.flight, batch))
    case Refuse(batch) => st.(flight := st.flight - batch, back := st.back + Take(st.flight, batch))
    case PutBack(c) =>
      st.(back := st.back - {c},
          pending := if c in st.pending then st.pending else st.pending[c := st.back[c]])
  }

  /** The sizes alone, as the backend keeps them. */
  ghost function Sizes(m: map<Cid, Write>): map<Cid, int> {
    map c | c in m :: m[c].size
  }

  /** The steps under the lock do to the recorded sizes what the backend's methods do. */
  lemma RecordIsAddModified(st: State, c: Cid, size: int)
    ensures Sizes(Next(st, Record(c, size)).pending) == Recorded(Sizes(st.pending), c, size)
  {
  }

  lemma SwapIsRenew(st: State)
    requires Enabled(st, Swap)
    ensures Sizes(Next(st, Swap).flight) == Sizes(st.pending) && Sizes(Next(st, Swap).pending) == map[]
  {
  }

  lemma PutBackIsAddBack(st: State, c: Cid)
    requires Enabled(st, PutBack(c))
    ensures Sizes(Next(st, PutBack(c)).pending) == Restored(Sizes(st.pending), ContainerInfo(c, st.back[c].size))
  {
  }

  /** Where the write of `c` that the notifier holds is, if any. */
  ghost function Held(st: State): map<Cid, Write> {
    st.flight + st.back
  }

  /** The latest size of `c` is recorded, held by the notifier, or accepted: in that order of priority. */
  ghost predicate Accounted(st: State, c: Cid)
    requires c in st.latest
  {
    if c in st.pending then st.pending[c] == st.latest[c]
    else if c in Held(st) then Held(st)[c] == st.latest[c]
    else c in st.accepted && st.accepted[c] == st.latest[c]
  }

  /** What every state guarantees for one container. */
  ghost predicate Sound(st: State, c: Cid) {
    && (c in st.flight ==> c !in st.back)
    && (c in st.pending || c in Held(st) || c in st.accepted ==> c in st.latest)
    && (c in st.latest ==> st.latest[c].stamp < st.clock && Accounted(st, c))
    // what is recorded is newer than what is held, which is newer than what was accepted
    && (c in st.pending && c in Held(st) ==> Held(st)[c].stamp < st.pending[c].stamp)
    && (c in st.pending && c in st.accepted ==> st.accepted[c].stamp < st.pending[c].stamp)
    && (c in Held(st) && c in st.accepted ==> st.accepted[c].stamp < Held(st)[c].stamp)
  }

  ghost predicate Inv(st: State) {
    forall c :: Sound(st, c)
  }

  lemma InitInv(st: State)
    requires Init(st)
    ensures Inv(st)
  {
  }

  lemma StepSound(st: State, step: Step, c: Cid)
    requires Sound(st, c) && Enabled(st, step)
    ensures Sound(Next(st, step), c)
  {
  }

  lemma StepInv(st: State, step: Step)
    requires Inv(st) && Enabled(st, step)
    ensures Inv(Next(st, step))
  {
    forall c ensures Sound(Next(st, step), c) {
      StepSound(st, step, c);
    }
  }

  /** `run` is a sequence of states, each reached from the one before by the step at its place. */
  ghost predicate IsRun(run: seq<State>, steps: seq<Step>) {
    && |run| == |steps| + 1 && Init(run[0])
    && forall i :: 0 <= i < |steps| ==> Enabled(run[i], steps[i]) && run[i + 1] == Next(run[i], steps[i])
  }

  /** Nothing is lost in any run: every latest size is recorded, in the notifier's hands, or accepted. */
  lemma {:induction false} NothingLost(run: seq<State>, steps: seq<Step>, i: nat)
    requires IsRun(run, steps) && i < |run|
    ensures Inv(run[i])
  {
    if i == 0 {
      InitInv(run[0]);
    } else {
      NothingLost(run, steps, i - 1);
      StepInv(run[i - 1], steps[i - 1]);
    }
  }

  /** Putting back never overwrites a size recorded in the meantime. */
  lemma PutBackKeepsNewer(run: seq<State>, steps: seq<Step>, i: nat)
    requires IsRun(run, steps) && i < |steps| && steps[i].PutBack?
    ensures forall c :: c in run[i].pending ==> c in run[i + 1].pending && run[i + 1].pending[c] == run[i].pending[c]
    ensures var c, st := steps[i].c, run[i + 1];
            c in st.pending && c in st.latest && st.pending[c] == st.latest[c]
  {
    NothingLost(run, steps, i);
    NothingLost(run, steps, i + 1);
    assert Sound(run[i + 1], steps[i].c);
  }

  /** META1 services accept the sizes of a container in the order they were recorded. */
  lemma AcceptedInOrder(run: seq<State>, steps: seq<Step>, i: nat, c: Cid)
    requires IsRun(run, steps) && i < |steps| && c in run[i].accepted
    ensures c in run[i + 1].accepted
    ensures run[i + 1].accepted[c] == run[i].accepted[c] || run[i].accepted[c].stamp < run[i + 1].accepted[c].stamp
  {
    NothingLost(run, steps, i);
    assert Sound(run[i], c);
  }

  /** Once nothing is recorded nor held, the META1 services know every latest size. */
  lemma QuietMeansDelivered(run: seq<State>, steps: seq<Step>, i: nat)
    requires IsRun(run, steps) && i < |run|
    requires run[i].pending == map[] && run[i].flight == map[] && run[i].back == map[]
    ensures run[i].accepted == run[i].latest
  {
    NothingLost(run, steps, i);
    var st := run[i];
    assert Held(st) == map[];
    forall c ensures c in st.latest <==> c in st.accepted
      ensures c in st.latest ==> st.accepted[c] == st.latest[c] {
      assert Sound(st, c);
    }
  }
  lemma OneMore(run: seq<State>, steps: seq<Step>, step: Step) returns (run': seq<State>, steps': seq<Step>)
    requires IsRun(run, steps) && Enabled(run[|steps|], step)
    ensures steps' == steps + [step] && IsRun(run', steps')
    ensures run'[|steps'|] == Next(run[|steps|], step)
  {
    run', steps' := run + [Next(run[|steps|], step)], steps + [step];
  }

  /** All that was refused can be put back. */
  lemma {:induction false} BackEmptied(run: seq<State>, steps: seq<Step>) returns (run': seq<State>, steps': seq<Step>)
    requires IsRun(run, steps)
    ensures steps <= steps' && IsRun(run', steps')
    ensures var st, st' := run[|steps|], run'[|steps'|];
            st'.back == map[] && st'.flight == st.flight && st'.latest == st.latest
    decreases |run[|steps|].back|
  {
    var st := run[|steps|];
    if st.back == map[] {
      run', steps' := run, steps;
    } else {
      var c :| c in st.back;
      assert (st.back - {c}).Keys == st.back.Keys - {c};
      run', steps' := OneMore(run, steps, PutBack(c));
      run', steps' := BackEmptied(run', steps');
    }
  }

  /** From every state of every run the latest sizes can all be delivered, without recording another. */
  lemma CanDeliver(run: seq<State>, steps: seq<Step>) returns (run': seq<State>, steps': seq<Step>)
    requires IsRun(run, steps)
    ensures steps <= steps' && IsRun(run', steps')
    ensures run'[|steps'|].accepted == run'[|steps'|].latest == run[|steps|].latest
  {
    run', steps' := OneMore(run, steps, Accept(run[|steps|].flight.Keys));
    assert run'[|steps'|].flight == map[];
    run', steps' := BackEmptied(run', steps');
    run', steps' := OneMore(run', steps', Swap);
    run', steps' := OneMore(run', steps', Accept(run'[|steps'|].flight.Keys));
    assert run'[|steps'|].flight == map[];
    QuietMeansDelivered(run', steps', |steps'|);
  }
}
