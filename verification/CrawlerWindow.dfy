/**
 The crawler's window of contexts sent to actions and not yet acknowledged (crawler/crawler.c).

 Three threads share the context table under a mutex: the trip thread inserts, acknowledgements and
 the timeout check remove. Each critical section of the source is one step here, and the steps of
 the threads interleave freely.
 */
module CrawlerWindow {

  type Id = nat

  /** The limits; zero means no limit. */
  datatype Limits = Limits(sup: nat, max: nat)

  /** The size at which a full window opens again (`ctxWait_inf`). */
  function Inf(sup: nat): (inf: nat)
    ensures sup > 0 ==> inf < sup
    ensures sup >= 2 ==> 2 * inf <= sup <= 2 * inf + 1
    ensures sup <= 1 ==> inf == 0
  {
    if sup <= 1 then 0 else sup / 2
  }

  /** Where the trip thread stands. */
  datatype Place =
    | Head                // about to treat the next element, or to end
    | Sent(id: Id)        // element sent to an action, context not yet in the table
    | Measure             // about to compare the table with the limit
    | Waiting             // the table was seen full
    | Tally               // about to count the element
    | Ended

  datatype State = State(place: Place, table: set<Id>, stop: bool, counted: nat, handled: nat)

  datatype Step =
    | Acknowledge(id: Id)
    | Expire(ids: set<Id>)
    | Stop                // raised by a signal or a failing thread, never lowered
    | End                 // no next element, a stop command, or no memory
    | Send(id: Id)        // an action accepted the element
    | Refuse              // no action available, or sending failed
    | Insert
    | Check
    | Recheck
    | Count

  ghost predicate Enabled(s: State, step: Step) {
    match step
    case Acknowledge(_) => true
    case Expire(_) => true
    case Stop => true
    case End => s.place.Head?
    case Send(_) => s.place.Head? && !s.stop
    case Refuse => s.place.Head? && !s.stop
    case Insert => s.place.Sent?
    case Check => s.place.Measure?
    case Recheck => s.place.Waiting?
    case Count => s.place.Tally?
  }

  ghost function Next(l: Limits, s: State, step: Step): State
    requires Enabled(s, step)
  {
    match step
    case Acknowledge(id) => s.(table := s.table - {id})
    case Expire(ids) => s.(table := s.table - ids)
    case Stop => s.(stop := true)
    case End => s.(place := Ended)
    case Send(id) => s.(place := Sent(id), handled := s.handled + 1)
    case Refuse => s.(place := Measure, handled := s.handled + 1)
    case Insert => s.(place := Measure, table := s.table + {s.place.id})
    case Check => s.(place := if l.sup > 0 && |s.table| >= l.sup then Waiting else Tally)
    case Recheck => s.(place := if |s.table| > Inf(l.sup) && !s.stop then Waiting else Tally)
    case Count =>
      var counted := if l.max > 0 then s.counted + 1 else s.counted;
      var stop := s.stop || (l.max > 0 && counted >= l.max);
      s.(place := if stop then Ended else Head, stop := stop, counted := counted)
  }

  ghost function Init(): State {
    State(Head, {}, false, 0, 0)
  }

  /** States and the steps between them, from the start of the trip. */
  ghost predicate IsRun(l: Limits, states: seq<State>, steps: seq<Step>) {
    && |states| == |steps| + 1
    && states[0] == Init()
    && forall i :: 0 <= i < |steps| ==> IsStep(l, states, steps, i)
  }

  ghost predicate IsStep(l: Limits, states: seq<State>, steps: seq<Step>, i: nat)
    requires i < |steps| && |states| == |steps| + 1
  {
    Enabled(states[i], steps[i]) && states[i + 1] == Next(l, states[i], steps[i])
  }

  // ---------------------------------------------------------------------------------------------
  // What every step keeps

  /** Room for one more entry wherever the trip thread may still insert. */
  ghost predicate Window(l: Limits, s: State) {
    l.sup > 0 ==>
      match s.place
      case Head => |s.table| < l.sup
      case Sent(_) => |s.table| < l.sup
      case Tally => |s.table| <= l.sup && (s.stop || |s.table| < l.sup)
      case _ => |s.table| <= l.sup
  }

  /** Elements are counted one by one, and no element is begun after the last one allowed. */
  ghost predicate Budget(l: Limits, s: State) {
    l.max > 0 ==>
      match s.place
      case Head => s.handled == s.counted < l.max
      case Ended => s.handled == s.counted <= l.max
      case _ => s.handled == s.counted + 1 <= l.max
  }

  lemma StepKeeps(l: Limits, s: State, step: Step)
    requires Enabled(s, step) && Window(l, s) && Budget(l, s)
    ensures Window(l, Next(l, s, step)) && Budget(l, Next(l, s, step))
  {
  }

  lemma {:induction false} RunKeeps(l: Limits, states: seq<State>, steps: seq<Step>, i: nat)
    requires IsRun(l, states, steps) && i < |states|
    ensures Window(l, states[i]) && Budget(l, states[i])
  {
    if i == 0 {
    } else {
      RunKeeps(l, states, steps, i - 1);
      assert IsStep(l, states, steps, i - 1);
      StepKeeps(l, states[i - 1], steps[i - 1]);
    }
  }

  // ---------------------------------------------------------------------------------------------
  // The promises, in every interleaving

  /** The table never exceeds a positive limit, even when a stop breaks the wait. */
  lemma WindowBounded(l: Limits, states: seq<State>, steps: seq<Step>, i: nat)
    requires IsRun(l, states, steps) && i < |states| && l.sup > 0
    ensures |states[i].table| <= l.sup
  {
    RunKeeps(l, states, steps, i);
  }

  /** At most `ctxmax` elements are handled when that limit is positive. */
  lemma HandledBounded(l: Limits, states: seq<State>, steps: seq<Step>, i: nat)
    requires IsRun(l, states, steps) && i < |states| && l.max > 0
    ensures states[i].handled <= l.max
  {
    RunKeeps(l, states, steps, i);
  }

  /** The thread has left the wait only because of a stop, and ends without another element. */
  ghost predicate HeldBack(s: State) {
    s.place.Waiting? || (s.stop && (s.place.Tally? || s.place.Ended?))
  }

  /** Somewhere between `i` and `j` the waiting thread saw the table down at the lower limit. */
  ghost predicate Reopened(l: Limits, states: seq<State>, steps: seq<Step>, i: nat, j: nat)
    requires i <= j <= |steps| && |states| == |steps| + 1
  {
    exists k :: i <= k < j && steps[k].Recheck? && |states[k].table| <= Inf(l.sup)
  }

  lemma {:induction false} StaysBack(l: Limits, states: seq<State>, steps: seq<Step>, i: nat, j: nat)
    requires IsRun(l, states, steps) && i <= j <= |steps| && states[i].place.Waiting?
    ensures HeldBack(states[j]) || Reopened(l, states, steps, i, j)
    decreases j
  {
    if i == j {
    } else {
      StaysBack(l, states, steps, i, j - 1);
      assert IsStep(l, states, steps, j - 1);
      if Reopened(l, states, steps, i, j - 1) {
        var k :| i <= k < j - 1 && steps[k].Recheck? && |states[k].table| <= Inf(l.sup);
        assert Reopened(l, states, steps, i, j);
      } else if steps[j - 1].Recheck? && |states[j - 1].table| <= Inf(l.sup) {
        assert Reopened(l, states, steps, i, j);
      }
    }
  }

  /** Hysteresis: once seen full, the window takes no element before it was seen at the lower limit. */
  lemma Hysteresis(l: Limits, states: seq<State>, steps: seq<Step>, i: nat, j: nat)
    requires IsRun(l, states, steps) && i <= j < |steps| && states[i].place.Waiting?
    requires steps[j].Send? || steps[j].Refuse? || steps[j].Insert?
    ensures Reopened(l, states, steps, i, j)
  {
    StaysBack(l, states, steps, i, j);
    assert IsStep(l, states, steps, j);
  }

  /** The context is taken out at step `k`. */
  ghost predicate Removes(step: Step, id: Id) {
    step == Acknowledge(id) || (step.Expire? && id in step.ids)
  }

  lemma {:induction false} NotSentAgain(l: Limits, states: seq<State>, steps: seq<Step>, i: nat, j: nat, id: Id)
    requires IsRun(l, states, steps) && i <= j < |states| && states[i].place != Sent(id)
    requires forall k :: i <= k < j ==> steps[k] != Send(id)
    ensures states[j].place != Sent(id)
    decreases j
  {
    if i == j {
    } else {
      NotSentAgain(l, states, steps, i, j - 1, id);
      assert IsStep(l, states, steps, j - 1);
    }
  }

  /** A context inserted once is in the table iff no acknowledgement and no expiry came after its insertion. */
  lemma {:induction false} EntryStays(l: Limits, states: seq<State>, steps: seq<Step>, i: nat, j: nat, id: Id)
    requires IsRun(l, states, steps) && i < j < |states| && steps[i].Insert? && states[i].place == Sent(id)
    requires forall k :: i < k < j ==> steps[k] != Send(id)
    ensures id in states[j].table <==> forall k :: i < k < j ==> !Removes(steps[k], id)
    decreases j
  {
    var last: nat := j - 1;
    assert IsStep(l, states, steps, last);
    if i == last {
    } else {
      EntryStays(l, states, steps, i, last, id);
      assert IsStep(l, states, steps, i);
      NotSentAgain(l, states, steps, i + 1, last, id);
    }
  }

  /** One more step of a run. */
  lemma Append(l: Limits, states: seq<State>, steps: seq<Step>, step: Step)
    returns (states': seq<State>, steps': seq<Step>)
    requires IsRun(l, states, steps) && Enabled(states[|steps|], step)
    ensures steps' == steps + [step] && IsRun(l, states', steps')
    ensures states'[|steps'|] == Next(l, states[|steps|], step)
  {
    states', steps' := states + [Next(l, states[|steps|], step)], steps + [step];
    forall i | 0 <= i < |steps'| ensures IsStep(l, states', steps', i) {
      assert i < |steps| ==> IsStep(l, states, steps, i);
    }
  }

  /** An acknowledgement that comes between the sending and the insertion is lost. */
  lemma EarlyAcknowledgement(l: Limits, id: Id) returns (states: seq<State>, steps: seq<Step>)
    ensures steps == [Send(id), Acknowledge(id), Insert] && IsRun(l, states, steps) && id in states[3].table
  {
    states, steps := [Init()], [];
    states, steps := Append(l, states, steps, Send(id));
    states, steps := Append(l, states, steps, Acknowledge(id));
    states, steps := Append(l, states, steps, Insert);
  }

  /** How many steps the trip thread has before it once a stop is raised. */
  ghost function StepsToEnd(p: Place): nat {
    match p
    case Ended => 0
    case Head => 1
    case Tally => 1
    case Waiting => 2
    case Measure => 3
    case Sent(_) => 4
  }

  /** Once a stop is raised, wherever the trip thread stands, it can end within four steps and without an element. */
  lemma {:induction false} StopEnds(l: Limits, states: seq<State>, steps: seq<Step>)
    returns (states': seq<State>, steps': seq<Step>)
    requires IsRun(l, states, steps) && states[|steps|].stop
    ensures IsRun(l, states', steps') && steps <= steps'
    ensures |steps'| <= |steps| + StepsToEnd(states[|steps|].place)
    ensures states'[|steps'|].place == Ended && states'[|steps'|].handled == states[|steps|].handled
    decreases StepsToEnd(states[|steps|].place)
  {
    var s := states[|steps|];
    if s.place.Ended? {
      states', steps' := states, steps;
    } else {
      var step := match s.place
        case Head => End
        case Tally => Count
        case Waiting => Recheck
        case Measure => Check
        case Sent(_) => Insert;
      states', steps' := Append(l, states, steps, step);
      states', steps' := StopEnds(l, states', steps');
    }
  }

  // ---------------------------------------------------------------------------------------------
  // Which sizes are reached

  ghost function Numbers(n: nat): (r: set<Id>)
    ensures |r| == n && forall i :: i in r ==> i < n
  {
    if n == 0 then {} else Numbers(n - 1) + {n - 1}
  }

  /** Below the limits every number of contexts is reached, none of them acknowledged. */
  lemma {:induction false} Grows(l: Limits, n: nat) returns (states: seq<State>, steps: seq<Step>)
    requires (l.sup == 0 || n < l.sup) && (l.max == 0 || n < l.max)
    ensures IsRun(l, states, steps)
    ensures states[|steps|] == State(Head, Numbers(n), false, if l.max > 0 then n else 0, n)
  {
    if n == 0 {
      states, steps := [Init()], [];
    } else {
      states, steps := Grows(l, n - 1);
      var counted := if l.max > 0 then n - 1 else 0;
      states, steps := Append(l, states, steps, Send(n - 1));
      states, steps := Append(l, states, steps, Insert);
      assert states[|steps|] == State(Measure, Numbers(n), false, counted, n);
      states, steps := Append(l, states, steps, Check);
      assert states[|steps|] == State(Tally, Numbers(n), false, counted, n);
      states, steps := Append(l, states, steps, Count);
    }
  }

  /** The limit of the table is reached: a full window is seen at exactly that size. */
  lemma WindowFills(l: Limits) returns (states: seq<State>, steps: seq<Step>)
    requires l.sup > 0 && (l.max == 0 || l.sup <= l.max)
    ensures IsRun(l, states, steps)
    ensures states[|steps|] == State(Waiting, Numbers(l.sup), false, if l.max > 0 then l.sup - 1 else 0, l.sup)
  {
    states, steps := Grows(l, l.sup - 1);
    states, steps := Append(l, states, steps, Send(l.sup - 1));
    states, steps := Append(l, states, steps, Insert);
    states, steps := Append(l, states, steps, Check);
  }

  /** A full window opens again as soon as exactly half of it is left. */
  lemma WindowReopens(l: Limits) returns (states: seq<State>, steps: seq<Step>)
    requires l.sup > 0 && (l.max == 0 || l.sup < l.max)
    ensures IsRun(l, states, steps)
    ensures states[|steps|] == State(Head, Numbers(Inf(l.sup)), false, if l.max > 0 then l.sup else 0, l.sup)
  {
    states, steps := WindowFills(l);
    NumbersBelow(Inf(l.sup), l.sup);
    states, steps := Append(l, states, steps, Expire(Numbers(l.sup) - Numbers(Inf(l.sup))));
    assert states[|steps|].table == Numbers(Inf(l.sup));
    states, steps := Append(l, states, steps, Recheck);
    states, steps := Append(l, states, steps, Count);
  }

  /** The number of elements allowed is used up, even if no action takes any. */
  lemma BudgetSpent(l: Limits) returns (states: seq<State>, steps: seq<Step>)
    requires l.max > 0
    ensures IsRun(l, states, steps) && states[|steps|] == State(Ended, {}, true, l.max, l.max)
  {
    states, steps := AllRefused(l, l.max - 1);
    states, steps := Append(l, states, steps, Refuse);
    states, steps := Append(l, states, steps, Check);
    states, steps := Append(l, states, steps, Count);
  }

  lemma {:induction false} AllRefused(l: Limits, n: nat) returns (states: seq<State>, steps: seq<Step>)
    requires n < l.max
    ensures IsRun(l, states, steps) && states[|steps|] == State(Head, {}, false, n, n)
  {
    if n == 0 {
      states, steps := [Init()], [];
    } else {
      states, steps := AllRefused(l, n - 1);
      states, steps := Append(l, states, steps, Refuse);
      states, steps := Append(l, states, steps, Check);
      states, steps := Append(l, states, steps, Count);
    }
  }

  lemma {:induction false} NumbersBelow(m: nat, n: nat)
    requires m <= n
    ensures Numbers(m) <= Numbers(n)
  {
    if m < n {
      NumbersBelow(m, n - 1);
    }
  }

  /** Contexts in the table, and the one about to enter it, were all handled. */
  ghost predicate Handled(s: State) {
    |s.table| + (if s.place.Sent? then 1 else 0) <= s.handled
  }

  lemma {:induction false} RunHandled(l: Limits, states: seq<State>, steps: seq<Step>, i: nat)
    requires IsRun(l, states, steps) && i < |states|
    ensures Handled(states[i])
  {
    if i == 0 {
    } else {
      RunHandled(l, states, steps, i - 1);
      assert IsStep(l, states, steps, i - 1);
    }
  }

  ghost predicate BoundedBy(l: Limits, bound: nat) {
    forall states: seq<State>, steps: seq<Step>, i: nat :: IsRun(l, states, steps) && i < |states| ==>
      |states[i].table| <= bound
  }

  /** The table is bounded over all runs iff one of the limits is positive. */
  lemma BoundedIffLimited(l: Limits)
    ensures (exists bound: nat :: BoundedBy(l, bound)) <==> l.sup > 0 || l.max > 0
  {
    if l.sup > 0 {
      forall states: seq<State>, steps: seq<Step>, i: nat | IsRun(l, states, steps) && i < |states|
        ensures |states[i].table| <= l.sup
      {
        WindowBounded(l, states, steps, i);
      }
      assert BoundedBy(l, l.sup);
    } else if l.max > 0 {
      forall states: seq<State>, steps: seq<Step>, i: nat | IsRun(l, states, steps) && i < |states|
        ensures |states[i].table| <= l.max
      {
        RunHandled(l, states, steps, i);
        HandledBounded(l, states, steps, i);
      }
      assert BoundedBy(l, l.max);
    } else {
      forall bound: nat ensures !BoundedBy(l, bound) {
        var states, steps := Grows(l, bound + 1);
        assert |states[|steps|].table| == bound + 1;
      }
    }
  }
}
