/**
 The order in which the bean generator emits tables: each bean after the beans its foreign keys
 reference (`Generator.reverse_dependencies`, meta2v2/m2gen.py).
 */
module BeanOrder {
  import opened Collections

  datatype Name = Name(text: string)

  /** The beans by name, with the targets of their outgoing foreign keys; a target need not be a bean. */
  type Beans = map<Name, seq<Name>>

  /** The names still queued, and the names listed so far. */
  datatype State = State(queue: seq<Name>, result: seq<Name>)

  ghost function Names(s: seq<Name>): set<Name> {
    set x | x in s
  }

  predicate Ready(beans: Beans, n: Name, done: seq<Name>)
    requires n in beans
  {
    forall d :: d in beans[n] ==> d in done
  }

  /** A queue of all the beans, in any order. */
  ghost predicate Initial(beans: Beans, queue: seq<Name>) {
    NoDup(queue) && Names(queue) == beans.Keys
  }

  /** Every bean is queued or listed, once; a listed bean follows all it references. */
  ghost predicate Inv(beans: Beans, s: State) {
    && NoDup(s.queue) && NoDup(s.result) && Names(s.queue) !! Names(s.result)
    && Names(s.queue) + Names(s.result) == beans.Keys
    && Ordered(beans, s.result)
  }

  ghost predicate Ordered(beans: Beans, result: seq<Name>) {
    forall i :: 0 <= i < |result| ==> result[i] in beans && Ready(beans, result[i], result[..i])
  }

  /** One turn of the queue. */
  ghost function Step(beans: Beans, s: State): State {
    if s.queue == [] || s.queue[0] !in beans then s
    else if Ready(beans, s.queue[0], s.result) then State(s.queue[1..], s.result + [s.queue[0]])
    else State(s.queue[1..] + [s.queue[0]], s.result)
  }

  ghost function Run(beans: Beans, s: State, n: nat): State {
    if n == 0 then s else Step(beans, Run(beans, s, n - 1))
  }

  /** Among any beans left there is one that references only beans outside them. */
  ghost predicate Grounded(beans: Beans) {
    forall left: set<Name> :: left != {} && left <= beans.Keys ==> HasFree(beans, left)
  }

  ghost predicate HasFree(beans: Beans, left: set<Name>)
    requires left <= beans.Keys
  {
    exists n :: n in left && Free(beans, n, left)
  }

  ghost predicate Finishes(beans: Beans, s: State) {
    exists n: nat :: Run(beans, s, n).queue == []
  }

  ghost predicate Free(beans: Beans, n: Name, left: set<Name>)
    requires n in beans
  {
    forall d :: d in beans[n] ==> d in beans && d !in left
  }

  // ---------------------------------------------------------------------------------------------
  // The invariant

  lemma HeadAndTail(s: seq<Name>)
    requires s != []
    ensures Names(s) == Names(s[1..]) + {s[0]}
    ensures NoDup(s) ==> NoDup(s[1..]) && s[0] !in Names(s[1..])
  {
    assert s == [s[0]] + s[1..];
    if NoDup(s) {
      TailOfNoDup(s);
    }
  }

  lemma AddLast(s: seq<Name>, x: Name)
    ensures Names(s + [x]) == Names(s) + {x}
    ensures NoDup(s) && x !in Names(s) ==> NoDup(s + [x])
  {
  }

  lemma OrderedNext(beans: Beans, result: seq<Name>, n: Name)
    requires Ordered(beans, result) && n in beans && Ready(beans, n, result)
    ensures Ordered(beans, result + [n])
  {
    var next := result + [n];
    forall i | 0 <= i < |next| ensures next[i] in beans && Ready(beans, next[i], next[..i]) {
      assert next[..i] == if i < |result| then result[..i] else result;
    }
  }

  lemma StepInv(beans: Beans, s: State)
    requires Inv(beans, s)
    ensures Inv(beans, Step(beans, s))
  {
    if s.queue == [] {
    } else {
      var head := s.queue[0];
      assert head in Names(s.queue);
      HeadAndTail(s.queue);
      AddLast(s.result, head);
      AddLast(s.queue[1..], head);
      if Ready(beans, head, s.result) {
        OrderedNext(beans, s.result, head);
      }
    }
  }

  // ---------------------------------------------------------------------------------------------
  // Progress

  /** Distance in the queue to the first bean that is ready. */
  ghost function FirstReady(beans: Beans, queue: seq<Name>, done: seq<Name>): (k: nat)
    requires Names(queue) <= beans.Keys
    ensures k <= |queue|
  {
    if queue == [] then 0
    else
      assert queue[0] in Names(queue);
      assert Names(queue[1..]) <= Names(queue);
      if Ready(beans, queue[0], done) then 0 else 1 + FirstReady(beans, queue[1..], done)
  }

  lemma {:induction false} FirstReadyFound(beans: Beans, queue: seq<Name>, done: seq<Name>, x: Name)
    requires Names(queue) <= beans.Keys && x in queue && x in beans && Ready(beans, x, done)
    ensures FirstReady(beans, queue, done) < |queue|
  {
    assert queue[0] in Names(queue);
    HeadAndTail(queue);
    if Ready(beans, queue[0], done) {
    } else {
      assert x in queue[1..];
      FirstReadyFound(beans, queue[1..], done, x);
    }
  }

  /** Appending to a queue that has a ready bean does not move the first one. */
  lemma {:induction false} FirstReadyAppend(beans: Beans, queue: seq<Name>, done: seq<Name>, x: Name)
    requires Names(queue) <= beans.Keys && x in beans && FirstReady(beans, queue, done) < |queue|
    ensures Names(queue + [x]) <= beans.Keys
    ensures FirstReady(beans, queue + [x], done) == FirstReady(beans, queue, done)
  {
    AddLast(queue, x);
    assert queue[0] in Names(queue);
    HeadAndTail(queue);
    if Ready(beans, queue[0], done) {
    } else {
      assert (queue + [x])[1..] == queue[1..] + [x];
      FirstReadyAppend(beans, queue[1..], done, x);
    }
  }

  /** A grounded graph always has a ready bean in the queue. */
  lemma SomeoneReady(beans: Beans, s: State)
    requires Inv(beans, s) && Grounded(beans) && s.queue != []
    ensures FirstReady(beans, s.queue, s.result) < |s.queue|
  {
    var left := Names(s.queue);
    assert s.queue[0] in left;
    assert left <= beans.Keys && HasFree(beans, left);
    var n :| n in left && Free(beans, n, left);
    forall d | d in beans[n] ensures d in s.result {
      assert d in Names(s.queue) + Names(s.result);
    }
    FirstReadyFound(beans, s.queue, s.result, n);
  }

  /** Each turn lists a bean or brings the first ready one nearer. */
  lemma StepProgress(beans: Beans, s: State)
    requires Inv(beans, s) && Grounded(beans) && s.queue != []
    ensures Inv(beans, Step(beans, s))
    ensures
      var t := Step(beans, s);
      |t.queue| == |s.queue| - 1 ||
      (|t.queue| == |s.queue| && FirstReady(beans, t.queue, t.result) < FirstReady(beans, s.queue, s.result))
  {
    StepInv(beans, s);
    SomeoneReady(beans, s);
    assert s.queue[0] in Names(s.queue);
    HeadAndTail(s.queue);
    if !Ready(beans, s.queue[0], s.result) {
      FirstReadyAppend(beans, s.queue[1..], s.result, s.queue[0]);
    }
  }

  // ---------------------------------------------------------------------------------------------
  // Termination, exactly

  lemma {:induction false} RunAfterStep(beans: Beans, s: State, n: nat)
    ensures Run(beans, Step(beans, s), n) == Run(beans, s, n + 1)
  {
    if n == 0 {
      assert Run(beans, s, 1) == Step(beans, Run(beans, s, 0));
    } else {
      RunAfterStep(beans, s, n - 1);
    }
  }

  /** On a grounded graph the queue empties. */
  lemma {:induction false} Empties(beans: Beans, s: State) returns (n: nat)
    requires Inv(beans, s) && Grounded(beans)
    ensures Run(beans, s, n).queue == []
    decreases |s.queue|, FirstReady(beans, s.queue, s.result)
  {
    if s.queue == [] {
      n := 0;
    } else {
      var next := Step(beans, s);
      StepProgress(beans, s);
      n := Empties(beans, next);
      RunAfterStep(beans, s, n);
      n := n + 1;
    }
  }

  /** Beans none of which is free among themselves never leave the queue. */
  lemma {:induction false} StuckStays(beans: Beans, s: State, left: set<Name>, n: nat)
    requires left <= beans.Keys && left <= Names(s.queue) && Inv(beans, s)
    requires forall x :: x in left ==> !Free(beans, x, left)
    ensures left <= Names(Run(beans, s, n).queue) && Inv(beans, Run(beans, s, n))
  {
    if n == 0 {
    } else {
      StuckStays(beans, s, left, n - 1);
      var t := Run(beans, s, n - 1);
      StepInv(beans, t);
      if t.queue != [] {
        var head := t.queue[0];
        HeadAndTail(t.queue);
        AddLast(t.queue[1..], head);
        if head in left {
          var d :| d in beans[head] && (d !in beans || d in left);
          assert d in t.result ==> d in Names(t.result);
        }
      }
    }
  }

  /** The loop ends exactly on the grounded graphs, whatever the order of the queue. */
  lemma TerminatesIffGrounded(beans: Beans, queue: seq<Name>)
    requires Initial(beans, queue)
    ensures Finishes(beans, State(queue, [])) <==> Grounded(beans)
  {
    var s := State(queue, []);
    if Grounded(beans) {
      var n := Empties(beans, s);
      assert Run(beans, s, n).queue == [];
    } else {
      var left: set<Name> :| left != {} && left <= beans.Keys && !HasFree(beans, left);
      var x :| x in left;
      forall m: nat ensures Run(beans, s, m).queue != [] {
        StuckStays(beans, s, left, m);
        assert x in Names(Run(beans, s, m).queue);
      }
    }
  }

  // ---------------------------------------------------------------------------------------------
  // Acyclic graphs

  /** A rank that decreases along every foreign key, whose targets are all beans. */
  ghost predicate Ranked(beans: Beans, rank: map<Name, nat>) {
    && rank.Keys == beans.Keys
    && (forall n, d :: n in beans && d in beans[n] ==> d in beans && rank[d] < rank[n])
  }

  lemma {:induction false} LowestRank(left: set<Name>, rank: map<Name, nat>) returns (n: Name)
    requires left != {} && left <= rank.Keys
    ensures n in left && forall x :: x in left ==> rank[n] <= rank[x]
    decreases |left|
  {
    n :| n in left;
    if left == {n} {
    } else {
      assert left == (left - {n}) + {n};
      var m := LowestRank(left - {n}, rank);
      if rank[m] < rank[n] {
        n := m;
      }
    }
  }

  /** Every graph without cycles and without foreign targets is grounded. */
  lemma RankedIsGrounded(beans: Beans, rank: map<Name, nat>)
    requires Ranked(beans, rank)
    ensures Grounded(beans)
  {
    forall left: set<Name> | left != {} && left <= beans.Keys ensures HasFree(beans, left) {
      var n := LowestRank(left, rank);
      assert Free(beans, n, left);
    }
  }

  /** The place of each bean in an order is a rank. */
  ghost function Places(result: seq<Name>): map<Name, nat> {
    map n | n in result :: Place(result, n)
  }

  ghost function Place(result: seq<Name>, n: Name): (i: nat)
    requires n in result
    ensures i < |result| && result[i] == n
  {
    if result[0] == n then 0 else 1 + Place(result[1..], n)
  }

  lemma OrderIsRank(beans: Beans, result: seq<Name>)
    requires NoDup(result) && Names(result) == beans.Keys && Ordered(beans, result)
    ensures Ranked(beans, Places(result))
  {
    var rank := Places(result);
    assert rank.Keys == Names(result);
    forall n, d | n in beans && d in beans[n] ensures d in beans && rank[d] < rank[n] {
      assert n in Names(result);
      var i := Place(result, n);
      assert Ready(beans, result[i], result[..i]) && d in result[..i];
      var k :| 0 <= k < i && result[..i][k] == d;
      assert result[k] == d && d in Names(result);
      var j := Place(result, d);
      if k < j {
        NoDupAt(result, k, j);
      } else if j < k {
        NoDupAt(result, j, k);
      }
    }
  }

  lemma {:induction false} RunInv(beans: Beans, s: State, n: nat)
    requires Inv(beans, s)
    ensures Inv(beans, Run(beans, s, n))
  {
    if n == 0 {
    } else {
      RunInv(beans, s, n - 1);
      StepInv(beans, Run(beans, s, n - 1));
    }
  }

  lemma {:induction false} SomeQueue(names: set<Name>) returns (queue: seq<Name>)
    ensures NoDup(queue) && Names(queue) == names
    decreases |names|
  {
    if names == {} {
      queue := [];
    } else {
      var n :| n in names;
      var rest := SomeQueue(names - {n});
      AddLast(rest, n);
      queue := rest + [n];
    }
  }

  /** The graphs on which the loop ends are those without cycles whose targets are all beans. */
  lemma GroundedIffRanked(beans: Beans)
    ensures Grounded(beans) <==> exists rank :: Ranked(beans, rank)
  {
    if Grounded(beans) {
      var queue := SomeQueue(beans.Keys);
      var s := State(queue, []);
      var n := Empties(beans, s);
      RunInv(beans, s, n);
      OrderIsRank(beans, Run(beans, s, n).result);
    }
    if rank :| Ranked(beans, rank) {
      RankedIsGrounded(beans, rank);
    }
  }

  /** The result lists every bean once, each after all it references. */
  method ReverseDependencies(beans: Beans, order: seq<Name>) returns (result: seq<Name>)
    requires Initial(beans, order) && Grounded(beans)
    ensures NoDup(result) && Names(result) == beans.Keys && Ordered(beans, result)
    ensures exists n: nat :: Run(beans, State(order, []), n) == State([], result)
  {
    var queue := order;
    result := [];
    ghost var n: nat := 0;
    while queue != []
      invariant Inv(beans, State(queue, result)) && Run(beans, State(order, []), n) == State(queue, result)
      decreases |queue|, FirstReady(beans, queue, result)
    {
      StepProgress(beans, State(queue, result));
      var name := queue[0];
      assert name in Names(queue);
      queue := queue[1..];
      if Ready(beans, name, result) {
        result := result + [name];
      } else {
        queue := queue + [name];
      }
      n := n + 1;
    }
  }
}
