/**
 The update of the services linked to the references of a META1 base, in batched transactions
 (`_update_m1_policy_by_prefix`, meta1v2/meta1_backend_services.c).
 */
module Meta1PolicyUpdate {
  import opened Collections

  /** The primary key of a row of `services` for the requested type. */
  datatype Key = Key(cid: nat, rank: nat)

  datatype Url = Url(text: string)

  type Rows = map<Key, Url>

  /** What the policy says of one row. */
  datatype Outcome = Fails | Unchanged | NewValue(url: Url)

  /**
   One row, with what the environment does while it is treated: whether a transaction can begin,
   whether the row can be saved, whether a transaction ended at this row can be committed.
   */
  datatype Item = Item(key: Key, begins: bool, policy: Outcome, saves: bool, commits: bool)

  datatype Report = Report(checked: nat, updated: nat, failed: nat)

  /** What became of a row: committed, lost, left alone, or saved in the open transaction. */
  datatype Fate = Updated | Failed | Same | Pending

  // ---------------------------------------------------------------------------------------------
  // Counting fates

  ghost function Count(fates: seq<Fate>, f: Fate): nat {
    if fates == [] then 0
    else Count(fates[..|fates| - 1], f) + if fates[|fates| - 1] == f then 1 else 0
  }

  lemma CountNext(fates: seq<Fate>, g: Fate, f: Fate)
    ensures Count(fates + [g], f) == Count(fates, f) + if g == f then 1 else 0
  {
  }

  lemma {:induction false} CountAll(fates: seq<Fate>)
    ensures |fates| == Count(fates, Updated) + Count(fates, Failed) + Count(fates, Same) + Count(fates, Pending)
  {
    if fates == [] {
    } else {
      CountAll(fates[..|fates| - 1]);
    }
  }

  /** The pending rows share one fate. */
  ghost function Settle(fates: seq<Fate>, to: Fate): (r: seq<Fate>)
    ensures |r| == |fates|
  {
    if fates == [] then []
    else
      var last := fates[|fates| - 1];
      Settle(fates[..|fates| - 1], to) + [if last.Pending? then to else last]
  }

  lemma {:induction false} SettledAt(fates: seq<Fate>, to: Fate)
    ensures forall i :: 0 <= i < |fates| ==> Settle(fates, to)[i] == if fates[i].Pending? then to else fates[i]
  {
    if fates == [] {
    } else {
      SettledAt(fates[..|fates| - 1], to);
    }
  }

  lemma {:induction false} CountSettled(fates: seq<Fate>, to: Fate, f: Fate)
    requires !to.Pending?
    ensures Count(Settle(fates, to), f) ==
      if f.Pending? then 0 else Count(fates, f) + if f == to then Count(fates, Pending) else 0
  {
    if fates == [] {
    } else {
      var last := fates[|fates| - 1];
      CountSettled(fates[..|fates| - 1], to, f);
      CountNext(Settle(fates[..|fates| - 1], to), if last.Pending? then to else last, f);
    }
  }

  lemma {:induction false} NonePending(fates: seq<Fate>)
    requires Count(fates, Pending) == 0
    ensures forall i :: 0 <= i < |fates| ==> !fates[i].Pending?
  {
    if fates == [] {
    } else {
      NonePending(fates[..|fates| - 1]);
    }
  }

  // ---------------------------------------------------------------------------------------------
  // The rows of the base

  /** The rows come from one query on the base: each exists, none comes twice. */
  ghost predicate Selected(db: Rows, items: seq<Item>) {
    && (forall i :: 0 <= i < |items| ==> items[i].key in db)
    && (forall i, j :: 0 <= i < j < |items| ==> OtherKey(items, i, j))
  }

  ghost predicate OtherKey(items: seq<Item>, i: nat, j: nat) {
    i < |items| && j < |items| && items[i].key != items[j].key
  }

  /** Every fate is possible for its row. */
  ghost predicate Fit(items: seq<Item>, fates: seq<Fate>) {
    |fates| <= |items| && forall i :: 0 <= i < |fates| ==> FitAt(items, fates, i)
  }

  ghost predicate FitAt(items: seq<Item>, fates: seq<Fate>, i: nat)
    requires i < |fates| <= |items|
  {
    match fates[i]
    case Updated => items[i].policy.NewValue?
    case Pending => items[i].policy.NewValue?
    case Same => items[i].policy.Unchanged?
    case Failed => items[i].policy.Unchanged? ==> !items[i].begins
  }

  lemma FitNext(items: seq<Item>, fates: seq<Fate>, f: Fate)
    requires Fit(items, fates) && |fates| < |items| && FitAt(items, fates + [f], |fates|)
    ensures Fit(items, fates + [f])
  {
    forall i | 0 <= i < |fates| ensures FitAt(items, fates + [f], i) {
      assert FitAt(items, fates, i);
    }
  }

  ghost predicate Counts(f: Fate, open: bool) {
    f.Updated? || (open && f.Pending?)
  }

  /** The rows `db` with the new values of the updated rows, and of the pending ones when asked. */
  ghost function Apply(db: Rows, items: seq<Item>, fates: seq<Fate>, open: bool): Rows
    requires |fates| <= |items|
  {
    if fates == [] then db
    else
      var n := |fates| - 1;
      var before := Apply(db, items, fates[..n], open);
      if Counts(fates[n], open) && items[n].policy.NewValue? then before[items[n].key := items[n].policy.url]
      else before
  }

  /** In check-only mode the base never changes. */
  ghost function Expected(db: Rows, items: seq<Item>, fates: seq<Fate>, open: bool, checkOnly: bool): Rows
    requires |fates| <= |items|
  {
    if checkOnly then db else Apply(db, items, fates, open)
  }

  lemma ApplyNext(db: Rows, items: seq<Item>, fates: seq<Fate>, f: Fate, open: bool)
    requires |fates| < |items|
    ensures Apply(db, items, fates + [f], open) ==
      var before, item := Apply(db, items, fates, open), items[|fates|];
      if Counts(f, open) && item.policy.NewValue? then before[item.key := item.policy.url] else before
  {
  }

  lemma {:induction false} ApplySettled(db: Rows, items: seq<Item>, fates: seq<Fate>, to: Fate, open: bool)
    requires |fates| <= |items| && (to.Updated? || to.Failed?)
    ensures Apply(db, items, Settle(fates, to), open) == Apply(db, items, fates, to.Updated?)
  {
    if fates == [] {
    } else {
      var n := |fates| - 1;
      ApplySettled(db, items, fates[..n], to, open);
      ApplyNext(db, items, Settle(fates[..n], to), if fates[n].Pending? then to else fates[n], open);
    }
  }

  lemma FitSettled(items: seq<Item>, fates: seq<Fate>, to: Fate)
    requires Fit(items, fates) && (to.Updated? || to.Failed?)
    ensures Fit(items, Settle(fates, to))
    ensures to.Updated? && OnlyBusiness(items, fates) ==> OnlyBusiness(items, Settle(fates, to))
  {
    SettledAt(fates, to);
    forall i | 0 <= i < |fates| ensures FitAt(items, Settle(fates, to), i) {
      assert FitAt(items, fates, i);
    }
  }

  /** The rows written are exactly the updated ones, each with its own new value. */
  lemma {:induction false} ApplyMeans(db: Rows, items: seq<Item>, fates: seq<Fate>, i: nat, open: bool)
    requires Selected(db, items) && |fates| <= |items| && i < |items|
    ensures Apply(db, items, fates, open).Keys == db.Keys
    ensures Apply(db, items, fates, open)[items[i].key] ==
      if i < |fates| && Counts(fates[i], open) && items[i].policy.NewValue? then items[i].policy.url
      else db[items[i].key]
  {
    if fates == [] {
    } else {
      var n := |fates| - 1;
      ApplyMeans(db, items, fates[..n], i, open);
      assert i < n ==> OtherKey(items, i, n);
      assert n < i ==> OtherKey(items, n, i);
    }
  }

  /** Rows that were not selected keep their values. */
  lemma {:induction false} ApplyElsewhere(db: Rows, items: seq<Item>, fates: seq<Fate>, k: Key, open: bool)
    requires |fates| <= |items| && k in db && forall i :: 0 <= i < |items| ==> items[i].key != k
    ensures k in Apply(db, items, fates, open) && Apply(db, items, fates, open)[k] == db[k]
  {
    if fates == [] {
    } else {
      ApplyElsewhere(db, items, fates[..|fates| - 1], k, open);
    }
  }

  /** The first `n` rows meet no failure of the environment. */
  ghost predicate Smooth(items: seq<Item>, n: nat)
    requires n <= |items|
  {
    forall i :: 0 <= i < n ==> items[i].begins && items[i].saves && items[i].commits
  }

  /** Only the policy made rows fail. */
  ghost predicate OnlyBusiness(items: seq<Item>, fates: seq<Fate>) {
    |fates| <= |items| && forall i :: 0 <= i < |fates| && fates[i].Failed? ==> items[i].policy.Fails?
  }

  /** The counters agree with the fates. */
  ghost predicate Tallied(fates: seq<Fate>, updated: nat, failed: nat, current: nat) {
    updated == Count(fates, Updated) && failed == Count(fates, Failed) && current == Count(fates, Pending)
  }

  lemma TalliedNext(fates: seq<Fate>, f: Fate, updated: nat, failed: nat, current: nat)
    requires Tallied(fates, updated, failed, current)
    ensures Tallied(fates + [f], updated + (if f.Updated? then 1 else 0), failed + (if f.Failed? then 1 else 0),
              current + (if f.Pending? then 1 else 0))
  {
  }

  lemma TalliedSettled(fates: seq<Fate>, to: Fate, updated: nat, failed: nat, current: nat)
    requires Tallied(fates, updated, failed, current) && (to.Updated? || to.Failed?)
    ensures Tallied(Settle(fates, to), updated + (if to.Updated? then current else 0),
              failed + (if to.Failed? then current else 0), 0)
  {
    CountSettled(fates, to, Updated);
    CountSettled(fates, to, Failed);
    CountSettled(fates, to, Pending);
  }

  /** The fates once the pending rows have shared theirs. */
  lemma Settled(db: Rows, items: seq<Item>, fates: seq<Fate>, to: Fate, updated: nat, failed: nat, current: nat)
    returns (next: seq<Fate>)
    requires Fit(items, fates) && Tallied(fates, updated, failed, current) && (to.Updated? || to.Failed?)
    ensures |next| == |fates| && Fit(items, next)
    ensures to.Updated? && OnlyBusiness(items, fates) ==> OnlyBusiness(items, next)
    ensures to.Updated? ==> Tallied(next, updated + current, failed, 0)
    ensures to.Failed? ==> Tallied(next, updated, failed + current, 0)
    ensures Apply(db, items, next, false) == Apply(db, items, fates, to.Updated?)
    ensures Apply(db, items, next, true) == Apply(db, items, fates, to.Updated?)
  {
    next := Settle(fates, to);
    FitSettled(items, fates, to);
    TalliedSettled(fates, to, updated, failed, current);
    ApplySettled(db, items, fates, to, false);
    ApplySettled(db, items, fates, to, true);
  }

  // ---------------------------------------------------------------------------------------------
  // The counters and the error, row by row

  /** Whether a transaction is open, the rows pending in it, the error left so far, the counts. */
  datatype Progress = Progress(open: bool, current: nat, err: bool, updated: nat, failed: nat)

  ghost function Ended(s: Progress, commits: bool): Progress {
    if s.err || !commits then Progress(false, 0, true, s.updated, s.failed + s.current)
    else Progress(false, 0, false, s.updated + s.current, s.failed)
  }

  /** A transaction can be begun for the row, or is open already. */
  ghost predicate Begun(s: Progress, item: Item) {
    s.open || item.begins
  }

  /** The row is to be written: only outside check-only mode. */
  ghost predicate SaveTried(s: Progress, item: Item, checkOnly: bool) {
    Begun(s, item) && item.policy.NewValue? && !checkOnly
  }

  /** The row as part of the open transaction; each save sets the error anew. */
  ghost function Joined(s: Progress, item: Item, checkOnly: bool): Progress {
    s.(open := true,
       current := s.current + if item.policy.NewValue? then 1 else 0,
       err := if item.policy.NewValue? && !checkOnly then !item.saves else s.err)
  }

  /** The transaction is ended after the `n`-th row. */
  ghost predicate EndsAt(s: Progress, item: Item, n: nat, checkOnly: bool) {
    var joined := Joined(s, item, checkOnly);
    Begun(s, item) && !item.policy.Fails? && (n % 100 == 0 || joined.current % 10 == 0 || joined.err)
  }

  /** The row fails by itself: no transaction for it, or no policy. */
  ghost predicate OwnError(s: Progress, item: Item) {
    !Begun(s, item) || item.policy.Fails?
  }

  ghost function Row(s: Progress, item: Item, n: nat, checkOnly: bool): Progress {
    if !Begun(s, item) then s.(failed := s.failed + 1)
    else if item.policy.Fails? then s.(open := true, failed := s.failed + 1)
    else
      var joined := Joined(s, item, checkOnly);
      if EndsAt(s, item, n, checkOnly) then Ended(joined, item.commits) else joined
  }

  /** Where the update stands after `n` rows. */
  ghost function After(items: seq<Item>, n: nat, checkOnly: bool): Progress
    requires n <= |items|
  {
    if n == 0 then Progress(false, 0, false, 0, 0)
    else Row(After(items, n - 1, checkOnly), items[n - 1], n, checkOnly)
  }

  ghost function Final(items: seq<Item>, checkOnly: bool, lastCommits: bool): Progress {
    var s := After(items, |items|, checkOnly);
    if s.open then Ended(s, lastCommits) else s
  }

  /** The last row failed by itself. */
  ghost predicate LastOwnError(items: seq<Item>, checkOnly: bool) {
    items != [] && OwnError(After(items, |items| - 1, checkOnly), items[|items| - 1])
  }

  /** Row `i` was written. */
  ghost predicate SavedAt(items: seq<Item>, i: nat, checkOnly: bool)
    requires i < |items|
  {
    SaveTried(After(items, i, checkOnly), items[i], checkOnly) && items[i].saves
  }

  /** At row `i` a save failed, or a commit did. */
  ghost predicate TroubleAt(items: seq<Item>, i: nat, checkOnly: bool)
    requires i < |items|
  {
    var s := After(items, i, checkOnly);
    || (SaveTried(s, items[i], checkOnly) && !items[i].saves)
    || (EndsAt(s, items[i], i + 1, checkOnly) && !Joined(s, items[i], checkOnly).err && !items[i].commits)
  }

  /** Something failed at row `i`, and no row before `n` was written after that. */
  ghost predicate Unrepaired(items: seq<Item>, i: nat, n: nat, checkOnly: bool)
    requires i < n <= |items|
  {
    TroubleAt(items, i, checkOnly) && forall j :: i < j < n ==> !SavedAt(items, j, checkOnly)
  }

  /** The error left after `n` rows: some save or commit failed, and no row was written after that. */
  lemma {:induction false} ErrorLeft(items: seq<Item>, n: nat, checkOnly: bool)
    requires n <= |items|
    ensures After(items, n, checkOnly).err <==>
      exists i :: 0 <= i < n && Unrepaired(items, i, n, checkOnly)
  {
    if n == 0 {
    } else {
      var last := n - 1;
      ErrorLeft(items, last, checkOnly);
      if TroubleAt(items, last, checkOnly) {
        assert Unrepaired(items, last, n, checkOnly);
      } else if SavedAt(items, last, checkOnly) {
        assert !After(items, n, checkOnly).err;
      } else {
        assert After(items, n, checkOnly).err == After(items, last, checkOnly).err;
        if After(items, last, checkOnly).err {
          var i :| 0 <= i < last && Unrepaired(items, i, last, checkOnly);
          assert Unrepaired(items, i, n, checkOnly);
        }
        assert forall i :: 0 <= i < last && Unrepaired(items, i, n, checkOnly) ==>
          Unrepaired(items, i, last, checkOnly);
      }
    }
  }

  /** No report is printed iff the last commit failed, or a save or commit failed with no row written after it. */
  lemma FinalError(items: seq<Item>, checkOnly: bool, lastCommits: bool)
    ensures Final(items, checkOnly, lastCommits).err <==>
      || (After(items, |items|, checkOnly).open && !lastCommits)
      || exists i :: 0 <= i < |items| && Unrepaired(items, i, |items|, checkOnly)
  {
    ErrorLeft(items, |items|, checkOnly);
  }

  /** In check-only mode nothing is written, so no failed commit is forgotten. */
  lemma CheckOnlyError(items: seq<Item>, n: nat)
    requires n <= |items|
    ensures After(items, n, true).err <==> exists i :: 0 <= i < n && TroubleAt(items, i, true)
  {
    ErrorLeft(items, n, true);
    assert forall i :: 0 <= i < n ==> (Unrepaired(items, i, n, true) <==> TroubleAt(items, i, true));
  }

  /** A forgotten error: the first of two rows is lost, the second written, and no error is left. */
  lemma Forgotten(k1: Key, k2: Key, u1: Url, u2: Url)
    ensures var items := [Item(k1, true, NewValue(u1), false, true), Item(k2, true, NewValue(u2), true, true)];
            Final(items, false, true) == Progress(false, 0, false, 1, 1)
  {
    var items := [Item(k1, true, NewValue(u1), false, true), Item(k2, true, NewValue(u2), true, true)];
    assert After(items, 0, false) == Progress(false, 0, false, 0, 0);
    assert After(items, 1, false) == Progress(false, 0, true, 0, 1);
    assert After(items, 2, false) == Progress(true, 1, false, 0, 1);
  }

  // ---------------------------------------------------------------------------------------------
  // How the rows are batched

  /** How many of the rows from `lo` on, before `hi`, have a new value. */
  ghost function NewValues(items: seq<Item>, lo: nat, hi: nat): nat
    requires lo <= hi <= |items|
    decreases hi
  {
    if lo == hi then 0 else NewValues(items, lo, hi - 1) + if items[hi - 1].policy.NewValue? then 1 else 0
  }

  /** How many of the first `n` rows the policy fails on. */
  ghost function Failures(items: seq<Item>, n: nat): nat
    requires n <= |items|
  {
    if n == 0 then 0 else Failures(items, n - 1) + if items[n - 1].policy.Fails? then 1 else 0
  }

  /** The last hundredth row at which a transaction ends; where the policy fails none does. */
  ghost function LastHundred(items: seq<Item>, n: nat): (m: nat)
    requires n <= |items|
    ensures m <= n
  {
    if n == 0 then 0
    else if n % 100 == 0 && !items[n - 1].policy.Fails? then n
    else LastHundred(items, n - 1)
  }

  /** Where the policy answers for every row, it is the last multiple of a hundred. */
  lemma {:induction false} EveryHundred(items: seq<Item>, n: nat)
    requires n <= |items| && forall i :: 0 <= i < n ==> !items[i].policy.Fails?
    ensures LastHundred(items, n) == n - n % 100
  {
    if n == 0 || n % 100 == 0 {
    } else {
      EveryHundred(items, n - 1);
      SameHundred(n);
    }
  }

  lemma SameHundred(n: nat)
    requires n % 100 != 0
    ensures n - 1 - (n - 1) % 100 == n - n % 100
  {
  }

  /** The rows pending after `n` smooth rows: those since the last tenth new value or hundredth row. */
  ghost function PendingAfter(items: seq<Item>, n: nat): nat
    requires n <= |items|
  {
    NewValues(items, LastHundred(items, n), n) % 10
  }

  /**
   A transaction is committed at every tenth new value since the last hundredth row, and at every
   hundredth row; a row the policy fails on counts as failed and ends nothing.
   */
  lemma {:induction false} Batches(items: seq<Item>, n: nat, checkOnly: bool)
    requires n <= |items| && Smooth(items, n)
    ensures var pending := PendingAfter(items, n);
            && pending <= NewValues(items, 0, n)
            && After(items, n, checkOnly) ==
               Progress(pending > 0 || (n > 0 && items[n - 1].policy.Fails?), pending, false,
                        NewValues(items, 0, n) - pending, Failures(items, n))
  {
    if n == 0 {
    } else {
      Batches(items, n - 1, checkOnly);
      PendingNext(items, n);
      SmoothRow(After(items, n - 1, checkOnly), items[n - 1], n, checkOnly);
    }
  }

  lemma SmoothRow(s: Progress, item: Item, n: nat, checkOnly: bool)
    requires s.current < 10 && !s.err && item.begins && item.saves && item.commits
    ensures var pending := s.current + if item.policy.NewValue? then 1 else 0;
            Row(s, item, n, checkOnly) ==
            if item.policy.Fails? then s.(open := true, failed := s.failed + 1)
            else if pending == 0 || pending == 10 || n % 100 == 0 then
              Progress(false, 0, false, s.updated + pending, s.failed)
            else
              Progress(true, pending, false, s.updated, s.failed)
  {
  }

  lemma PendingNext(items: seq<Item>, n: nat)
    requires 0 < n <= |items|
    ensures PendingAfter(items, n - 1) < 10
    ensures var pending := PendingAfter(items, n - 1) + if items[n - 1].policy.NewValue? then 1 else 0;
            PendingAfter(items, n) ==
            if pending == 10 || (n % 100 == 0 && !items[n - 1].policy.Fails?) then 0 else pending
  {
    var start := LastHundred(items, n);
    if start != n {
      var before := NewValues(items, start, n - 1);
      assert NewValues(items, start, n) == before + if items[n - 1].policy.NewValue? then 1 else 0;
      assert (before + 1) % 10 == if before % 10 == 9 then 0 else before % 10 + 1;
    }
  }

  /** Without a failure of the environment every new value is updated, and only the policy makes rows fail. */
  lemma SmoothRun(items: seq<Item>, checkOnly: bool)
    requires Smooth(items, |items|)
    ensures Final(items, checkOnly, true) ==
            Progress(false, 0, false, NewValues(items, 0, |items|), Failures(items, |items|))
  {
    Batches(items, |items|, checkOnly);
  }

  /** After `n` smooth rows, a save that fails loses the rows of its transaction, and no other. */
  lemma SaveLosesBatch(items: seq<Item>, n: nat)
    requires n < |items| && Smooth(items, n)
    requires items[n].begins && items[n].policy.NewValue? && !items[n].saves
    ensures var pending := PendingAfter(items, n);
            && pending <= NewValues(items, 0, n)
            && After(items, n + 1, false) ==
               Progress(false, 0, true, NewValues(items, 0, n) - pending, Failures(items, n) + pending + 1)
  {
    Batches(items, n, false);
  }

  /** So does a commit that fails, where the transaction is full: ten new values, or a hundredth row. */
  lemma CommitLosesBatch(items: seq<Item>, n: nat, checkOnly: bool)
    requires n < |items| && Smooth(items, n)
    requires items[n].begins && items[n].saves && !items[n].policy.Fails? && !items[n].commits
    ensures var pending := PendingAfter(items, n) + if items[n].policy.NewValue? then 1 else 0;
            && pending <= NewValues(items, 0, n + 1)
            && After(items, n + 1, checkOnly) ==
               if pending == 0 || pending == 10 || (n + 1) % 100 == 0 then
                 Progress(false, 0, true, NewValues(items, 0, n + 1) - pending, Failures(items, n) + pending)
               else
                 Progress(true, pending, false, NewValues(items, 0, n + 1) - pending, Failures(items, n))
  {
    Batches(items, n, checkOnly);
    LossyRow(After(items, n, checkOnly), items[n], n + 1, checkOnly);
  }

  lemma LossyRow(s: Progress, item: Item, n: nat, checkOnly: bool)
    requires s.current < 10 && !s.err && item.begins && item.saves && !item.commits && !item.policy.Fails?
    ensures var pending := s.current + if item.policy.NewValue? then 1 else 0;
            Row(s, item, n, checkOnly) ==
            if pending == 0 || pending == 10 || n % 100 == 0 then
              Progress(false, 0, true, s.updated, s.failed + pending)
            else
              Progress(true, pending, false, s.updated, s.failed)
  {
  }

  /** Ten new values of which the last cannot be saved: one transaction holds them all, and all are lost. */
  lemma TenRowsLost(items: seq<Item>)
    requires |items| == 10 && Smooth(items, 9) && forall i :: 0 <= i < 10 ==> items[i].policy.NewValue?
    requires items[9].begins && !items[9].saves
    ensures Final(items, false, true) == Progress(false, 0, true, 0, 10)
  {
    EveryHundred(items, 9);
    AllNew(items, 9);
    SaveLosesBatch(items, 9);
  }

  lemma {:induction false} AllNew(items: seq<Item>, n: nat)
    requires n <= |items| && forall i :: 0 <= i < n ==> items[i].policy.NewValue?
    ensures NewValues(items, 0, n) == n && Failures(items, n) == 0
  {
    if n == 0 {
    } else {
      AllNew(items, n - 1);
    }
  }

  // ---------------------------------------------------------------------------------------------
  // The update

  class Update {
    /** The rows as the connection sees them, and as last committed; whether a transaction is open. */
    var rows: Rows
    var stored: Rows
    var open: bool

    var checked: nat
    var failed: nat
    var updated: nat
    var current: nat
    var err: bool
    ghost var fates: seq<Fate>

    /** The counters and the committed rows agree with the fates. */
    ghost predicate Sound(db0: Rows, items: seq<Item>, checkOnly: bool)
      reads this
    {
      && |fates| == checked && Fit(items, fates) && Tallied(fates, updated, failed, current)
      && stored == Expected(db0, items, fates, false, checkOnly)
    }

    /** The rows of the connection add the pending ones. */
    ghost predicate Ahead(db0: Rows, items: seq<Item>, checkOnly: bool)
      reads this
    {
      |fates| <= |items| && rows == Expected(db0, items, fates, true, checkOnly)
    }

    /** What holds at the head of the loop: fewer than ten rows are pending, in an open transaction without error. */
    ghost predicate Inv(db0: Rows, items: seq<Item>, checkOnly: bool)
      reads this
    {
      && Sound(db0, items, checkOnly) && Ahead(db0, items, checkOnly)
      && (!open ==> rows == stored) && current < 10 && (current > 0 ==> open && !err)
    }

    ghost function Standing(): Progress
      reads this
    {
      Progress(open, current, err, updated, failed)
    }

    ghost predicate Clean(items: seq<Item>)
      reads this
    {
      !err && OnlyBusiness(items, fates)
    }

    constructor (db: Rows)
      ensures rows == db && stored == db && !open && !err
      ensures checked == failed == updated == current == 0 && fates == []
    {
      rows, stored, open := db, db, false;
      checked, failed, updated, current, err := 0, 0, 0, 0, false;
      fates := [];
    }

    /** Ends the transaction: its rows are all updated, or all failed and rolled back. */
    method CommitAndCount(commits: bool, ghost db0: Rows, ghost items: seq<Item>, ghost checkOnly: bool)
      requires open && Sound(db0, items, checkOnly) && (!err ==> Ahead(db0, items, checkOnly))
      modifies this
      ensures Inv(db0, items, checkOnly) && !open && current == 0
      ensures checked == old(checked) && Standing() == Ended(old(Standing()), commits)
      ensures old(Clean(items)) && commits ==> Clean(items)
    {
      err := err || !commits;
      if !err {
        ghost var next := Settled(db0, items, fates, Updated, updated, failed, current);
        stored := rows;
        updated := updated + current;
        fates := next;
      } else {
        ghost var next := Settled(db0, items, fates, Failed, updated, failed, current);
        rows := stored;
        failed := failed + current;
        fates := next;
      }
      current, open := 0, false;
    }

    /** A row that fails before anything is saved; an open transaction stays open. */
    method Fail(ghost db0: Rows, ghost items: seq<Item>, ghost checkOnly: bool)
      requires Inv(db0, items, checkOnly) && checked < |items|
      requires items[checked].policy.Fails? || !items[checked].begins
      modifies this
      ensures Inv(db0, items, checkOnly) && checked == old(checked) + 1
      ensures Standing() == old(Standing()).(failed := old(failed) + 1)
      ensures old(Clean(items)) && items[old(checked)].policy.Fails? ==> Clean(items)
    {
      TalliedNext(fates, Failed, updated, failed, current);
      FitNext(items, fates, Failed);
      ApplyNext(db0, items, fates, Failed, false);
      ApplyNext(db0, items, fates, Failed, true);
      checked, failed := checked + 1, failed + 1;
      fates := fates + [Failed];
    }

    /** A row the policy answered for: saved in the open transaction when it has a new value. */
    method Save(item: Item, checkOnly: bool, ghost db0: Rows, ghost items: seq<Item>)
      requires Inv(db0, items, checkOnly) && Selected(db0, items) && open
      requires checked < |items| && item == items[checked] && !item.policy.Fails?
      modifies this
      ensures open && Sound(db0, items, checkOnly) && checked == old(checked) + 1
      ensures !err || !item.policy.NewValue? || checkOnly ==> Ahead(db0, items, checkOnly)
      ensures Standing() == Joined(old(Standing()), item, checkOnly)
      ensures old(Clean(items)) && !err ==> Clean(items)
    {
      ghost var f := if item.policy.NewValue? then Pending else Same;
      TalliedNext(fates, f, updated, failed, current);
      FitNext(items, fates, f);
      ApplyNext(db0, items, fates, f, false);
      ApplyNext(db0, items, fates, f, true);
      if item.policy.NewValue? && !checkOnly {
        err := !item.saves;
        if item.saves {
          rows := rows[item.key := item.policy.url];
        }
      }
      checked := checked + 1;
      current := current + if item.policy.NewValue? then 1 else 0;
      fates := fates + [f];
    }

    /** One row of the loop; the result is the row's own error. */
    method Treat(item: Item, checkOnly: bool, ghost db0: Rows, ghost items: seq<Item>) returns (localErr: bool)
      requires Inv(db0, items, checkOnly) && Selected(db0, items) && checked < |items| && item == items[checked]
      modifies this
      ensures Inv(db0, items, checkOnly) && checked == old(checked) + 1
      ensures localErr == OwnError(old(Standing()), item)
      ensures Standing() == Row(old(Standing()), item, checked, checkOnly)
      ensures old(Clean(items)) && item.begins && item.saves && item.commits ==> Clean(items)
    {
      if !open {
        if !item.begins {
          Fail(db0, items, checkOnly);
          return true;
        }
        open := true;
      }
      if item.policy.Fails? {
        Fail(db0, items, checkOnly);
        return true;
      }
      Save(item, checkOnly, db0, items);
      if checked % 100 == 0 || current % 10 == 0 || err {
        CommitAndCount(item.commits, db0, items, checkOnly);
      }
      return false;
    }

    /** The whole update; `report` is what is printed when no technical error is left at the end. */
    method Run(items: seq<Item>, checkOnly: bool, lastCommits: bool) returns (error: bool, report: Option<Report>)
      requires !open && !err && checked == failed == updated == current == 0 && fates == []
      requires rows == stored && Selected(rows, items)
      modifies this
      ensures !open && rows == stored
      ensures |fates| == |items| && Fit(items, fates) && forall i :: 0 <= i < |fates| ==> !fates[i].Pending?
      ensures |items| == Count(fates, Updated) + Count(fates, Failed) + Count(fates, Same)
      ensures var end := Final(items, checkOnly, lastCommits);
              && Count(fates, Updated) == end.updated && Count(fates, Failed) == end.failed
              && report == (if end.err then None else Some(Report(|items|, end.updated, end.failed)))
              && error == (end.err || LastOwnError(items, checkOnly))
      ensures checkOnly ==> rows == old(rows)
      ensures !checkOnly ==> rows == Apply(old(rows), items, fates, false)
      ensures Smooth(items, |items|) && lastCommits ==>
        && OnlyBusiness(items, fates)
        && report == Some(Report(|items|, NewValues(items, 0, |items|), Failures(items, |items|)))
    {
      var localErr := false;
      while checked < |items|
        invariant checked <= |items| && Inv(old(rows), items, checkOnly) && (Smooth(items, |items|) ==> Clean(items))
        invariant Standing() == After(items, checked, checkOnly)
        invariant localErr <==> checked > 0 && OwnError(After(items, checked - 1, checkOnly), items[checked - 1])
      {
        localErr := Treat(items[checked], checkOnly, old(rows), items);
      }
      if open {
        CommitAndCount(lastCommits, old(rows), items, checkOnly);
      }
      CountAll(fates);
      NonePending(fates);
      if Smooth(items, |items|) {
        SmoothRun(items, checkOnly);
      }
      report := if err then None else Some(Report(checked, updated, failed));
      error := err || localErr;
    }
  }
}
