/**
 The deduplication procedures over a META2 base (meta2v2/meta2_dedup_utils.c), with the
 failures a base may report while rows are loaded and saved.
 */
module Meta2DedupRun {
  import opened Collections
  import opened Meta2Dedup

  /** Saves that fail, and loads that fail after having visited some of their rows only. */
  datatype Faults = Faults(saves: set<Key>, loads: map<Id, set<Key>>)

  ghost predicate NoFaults(f: Faults) {
    f.saves == {} && f.loads == map[]
  }

  /** Whatever fails, every alias is as before or redirected; a dry run changes nothing. */
  ghost predicate Harmless(plan: Plan, a0: Aliases, a: Aliases, dry: bool) {
    a.Keys == a0.Keys && forall k :: k in a0 ==> a[k] == a0[k] || (!dry && a[k] == Redirect(plan, a0[k]))
  }

  /** Exactly the aliases `keys` were redirected (or would be) and reported. */
  ghost predicate Progress(plan: Plan, a0: Aliases, a: Aliases, dry: bool, keys: set<Key>,
                           impacted: seq<string>, saved: nat)
  {
    && a == (if dry then a0 else Redirected(plan, a0, keys))
    && Reports(plan, a0, keys, impacted, saved)
  }

  lemma ProgressOne(plan: Plan, a0: Aliases, a: Aliases, dry: bool, keys: set<Key>,
                    impacted: seq<string>, saved: nat, k: Key)
    requires Progress(plan, a0, a, dry, keys, impacted, saved)
    requires k in a0 && k !in keys
    ensures Progress(plan, a0, if dry then a else a[k := Redirect(plan, a0[k])], dry, keys + {k},
                     [k.name] + impacted, saved + Gain(plan, a0, k))
  {
    ReportOne(plan, a0, keys, impacted, saved, k);
  }

  /** While other aliases were handled, those of `id` stayed in place. */
  lemma RowsComplete(plan: Plan, a0: Aliases, a: Aliases, dry: bool, keys: set<Key>,
                     impacted: seq<string>, saved: nat, id: Id)
    requires Settled(plan) && Progress(plan, a0, a, dry, keys, impacted, saved)
    requires id in plan && keys !! KeysOn(a0, {id})
    ensures forall k :: k in a && a[k].contentId == Some(id) <==> k in KeysOn(a0, {id})
  {
  }

  // ----- which aliases a run with failures redirects

  /** Of the rows visited, those whose save succeeds; a dry run saves nothing. */
  ghost function Kept(rows: set<Key>, dry: bool, faults: Faults): set<Key> {
    if dry then rows else rows - faults.saves
  }

  /** The rows visited by the load of the aliases of one content. */
  ghost function Loaded(a0: Aliases, id: Id, faults: Faults): set<Key> {
    if id in faults.loads then KeysOn(a0, {id}) * faults.loads[id] else KeysOn(a0, {id})
  }

  /** The rows visited while the first `n` headers of a list are merged: none after a load that failed. */
  ghost function Visited(a0: Aliases, l: seq<Header>, n: nat, faults: Faults): set<Key>
    requires n <= |l|
  {
    if n == 0 then {}
    else Visited(a0, l, n - 1, faults) + if Broken(l, n - 1, faults) then {} else Loaded(a0, l[n - 1].id, faults)
  }

  ghost predicate Broken(l: seq<Header>, n: nat, faults: Faults)
    requires n <= |l|
  {
    exists j :: 0 <= j < n && l[j].id in faults.loads
  }

  lemma {:induction false} VisitedStops(a0: Aliases, l: seq<Header>, i: nat, n: nat, faults: Faults)
    requires i <= n <= |l| && Broken(l, i, faults)
    ensures Visited(a0, l, n, faults) == Visited(a0, l, i, faults)
  {
    if i < n {
      VisitedStops(a0, l, i, n - 1, faults);
    }
  }

  lemma {:induction false} VisitedAt(a0: Aliases, l: seq<Header>, n: nat, faults: Faults, k: Key)
    requires n <= |l|
    ensures k in Visited(a0, l, n, faults) <==>
      exists j :: 0 <= j < n && k in Loaded(a0, l[j].id, faults) && !Broken(l, j, faults)
  {
    if n == 0 {
    } else {
      VisitedAt(a0, l, n - 1, faults, k);
    }
  }

  /** The headers to merge before this one, in row order, have loads that succeed. */
  ghost predicate Reached(headers: seq<Header>, id: Id, faults: Faults) {
    forall i, j :: 0 <= i < j < |headers| && headers[j].id == id ==> !Blocks(headers, headers[i], headers[j], faults)
  }

  /** The header to merge `x` has the hash and policy of `h`, and its load fails. */
  ghost predicate Blocks(headers: seq<Header>, x: Header, h: Header, faults: Faults) {
    x in headers && IsTail(headers, x) && Twins(x, h) && x.id in faults.loads
  }

  /**
   The aliases on the contents `ids` that a run redirects, or announces when dry: their header is
   reached, the load of its aliases gets to them, and they can be saved.
   */
  ghost function Served(headers: seq<Header>, a0: Aliases, ids: set<Id>, dry: bool, faults: Faults): set<Key> {
    set k | k in KeysOn(a0, ids) && IsServed(headers, a0[k].contentId.value, k, dry, faults)
  }

  ghost predicate IsServed(headers: seq<Header>, id: Id, k: Key, dry: bool, faults: Faults) {
    Reached(headers, id, faults) && (id in faults.loads ==> k in faults.loads[id]) && (dry || k !in faults.saves)
  }

  lemma ShiftKey(keys: set<Key>, left: set<Key>, k: Key, dry: bool, faults: Faults)
    requires k in left && keys !! left
    ensures (keys + Kept({k}, dry, faults)) !! (left - {k})
    ensures (keys + Kept({k}, dry, faults)) + Kept(left - {k}, dry, faults) == keys + Kept(left, dry, faults)
  {
  }

  lemma NextVisit(a0: Aliases, l: seq<Header>, i: nat, keys: set<Key>, dry: bool, faults: Faults)
    requires i < |l| && UniqueIds(l) && keys !! KeysOn(a0, IdsOf(l)) && !Broken(l, i, faults)
    ensures (keys + Kept(Visited(a0, l, i, faults), dry, faults)) !! KeysOn(a0, {l[i].id})
    ensures keys + Kept(Visited(a0, l, i + 1, faults), dry, faults) ==
            keys + Kept(Visited(a0, l, i, faults), dry, faults) + Kept(Loaded(a0, l[i].id, faults), dry, faults)
    ensures Broken(l, i + 1, faults) <==> l[i].id in faults.loads
  {
    forall k | k in KeysOn(a0, {l[i].id}) ensures k !in keys && k !in Visited(a0, l, i, faults) {
      assert l[i] in l && l[i].id in IdsOf(l);
      VisitedAt(a0, l, i, faults, k);
    }
  }

  ghost function ServedIn(headers: seq<Header>, a0: Aliases, groups: set<Group>, dry: bool, faults: Faults): set<Key> {
    Served(headers, a0, TailsIn(headers, groups), dry, faults)
  }

  /** A list of headers selected from the table is in row order. */
  lemma {:induction false} SelectInOrder(s: seq<Header>, hash: Hash, policy: Option<string>, i: nat, j: nat)
    returns (p: nat, q: nat)
    requires i < j < |s| && Fits(s[i], hash, policy) && Fits(s[j], hash, policy)
    ensures p < q < |Select(s, hash, policy)|
    ensures Select(s, hash, policy)[p] == s[i] && Select(s, hash, policy)[q] == s[j]
  {
    var rest := Select(s[1..], hash, policy);
    if i == 0 {
      SelectMembers(s[1..], hash, policy, s[j]);
      assert s[1..][j - 1] == s[j];
      var m :| 0 <= m < |rest| && rest[m] == s[j];
      p, q := 0, m + 1;
    } else {
      p, q := SelectInOrder(s[1..], hash, policy, i - 1, j - 1);
      if Fits(s[0], hash, policy) {
        p, q := p + 1, q + 1;
      }
    }
  }

  lemma {:induction false} SelectedInOrder(s: seq<Header>, hash: Hash, policy: Option<string>, p: nat, q: nat)
    returns (i: nat, j: nat)
    requires p < q < |Select(s, hash, policy)|
    ensures i < j < |s| && s[i] == Select(s, hash, policy)[p] && s[j] == Select(s, hash, policy)[q]
  {
    var rest := Select(s[1..], hash, policy);
    if !Fits(s[0], hash, policy) {
      i, j := SelectedInOrder(s[1..], hash, policy, p, q);
      i, j := i + 1, j + 1;
    } else if p == 0 {
      SelectMembers(s[1..], hash, policy, rest[q - 1]);
      var m :| 0 <= m < |s[1..]| && s[1..][m] == rest[q - 1];
      i, j := 0, m + 1;
    } else {
      i, j := SelectedInOrder(s[1..], hash, policy, p - 1, q - 1);
      i, j := i + 1, j + 1;
    }
  }

  lemma UniqueAt(l: seq<Header>, p: nat, q: nat)
    requires UniqueIds(l) && p < |l| && q < |l| && l[p].id == l[q].id
    ensures p == q
  {
  }

  /** A header that blocks another of its group comes before it in the group, after the first. */
  lemma BlocksBreaks(headers: seq<Header>, g: Group, m: nat, i: nat, j: nat, faults: Faults)
    requires UniqueIds(headers) && i < j < |headers|
    requires var l := Select(headers, g.hash, Some(g.policy));
             l != [] && m < |l[1..]| && headers[j].id == l[1..][m].id
    requires Blocks(headers, headers[i], headers[j], faults)
    ensures Broken(Select(headers, g.hash, Some(g.policy))[1..], m, faults)
  {
    var l := Select(headers, g.hash, Some(g.policy));
    GroupIds(headers, g.hash, Some(g.policy));
    GroupTail(headers, g, l[1..][m]);
    IdsIdentify(headers, headers[j], l[1..][m]);
    var p, q := SelectInOrder(headers, g.hash, Some(g.policy), i, j);
    UniqueAt(l, q, m + 1);
    GroupHead(headers, g.hash, g.policy, headers[i]);
    assert l[1..][p - 1] == headers[i];
  }

  lemma BreaksBlock(headers: seq<Header>, g: Group, b: nat, m: nat, faults: Faults)
    requires UniqueIds(headers) && b < m < |Select(headers, g.hash, Some(g.policy))|
    requires var l := Select(headers, g.hash, Some(g.policy)); b > 0 && l[b].id in faults.loads
    ensures !Reached(headers, Select(headers, g.hash, Some(g.policy))[m].id, faults)
  {
    var l := Select(headers, g.hash, Some(g.policy));
    assert l[b] == l[1..][b - 1];
    GroupTail(headers, g, l[b]);
    SelectMembers(headers, g.hash, Some(g.policy), l[m]);
    var i, j := SelectedInOrder(headers, g.hash, Some(g.policy), b, m);
    assert Blocks(headers, headers[i], headers[j], faults);
  }

  /** A header of a group is reached iff no load of the tails before it in the group fails. */
  lemma ReachedInGroup(headers: seq<Header>, g: Group, m: nat, faults: Faults)
    requires UniqueIds(headers)
    requires var l := Select(headers, g.hash, Some(g.policy)); l != [] && m < |l[1..]|
    ensures var t := Select(headers, g.hash, Some(g.policy))[1..];
            Reached(headers, t[m].id, faults) <==> !Broken(t, m, faults)
  {
    var t := Select(headers, g.hash, Some(g.policy))[1..];
    if Broken(t, m, faults) {
      var b :| 0 <= b < m && t[b].id in faults.loads;
      BreaksBlock(headers, g, b + 1, m + 1, faults);
    }
    if !Reached(headers, t[m].id, faults) {
      var i, j :| 0 <= i < j < |headers| && headers[j].id == t[m].id && Blocks(headers, headers[i], headers[j], faults);
      BlocksBreaks(headers, g, m, i, j, faults);
    }
  }

  /** What the merge of one group serves. */
  lemma GroupServed(headers: seq<Header>, a0: Aliases, g: Group, dry: bool, faults: Faults)
    requires UniqueIds(headers) && Select(headers, g.hash, Some(g.policy)) != []
    ensures var t := Select(headers, g.hash, Some(g.policy))[1..];
            Kept(Visited(a0, t, |t|, faults), dry, faults) == Served(headers, a0, IdsOf(t), dry, faults)
  {
    var l := Select(headers, g.hash, Some(g.policy));
    var t := l[1..];
    GroupIds(headers, g.hash, Some(g.policy));
    forall k
      ensures k in Kept(Visited(a0, t, |t|, faults), dry, faults) <==> k in Served(headers, a0, IdsOf(t), dry, faults)
    {
      VisitedAt(a0, t, |t|, faults, k);
      if k in Served(headers, a0, IdsOf(t), dry, faults) {
        var x :| x in t && x.id == a0[k].contentId.value;
        var m :| 0 <= m < |t| && t[m] == x;
        ReachedInGroup(headers, g, m, faults);
        assert k in Loaded(a0, t[m].id, faults);
      }
      if k in Kept(Visited(a0, t, |t|, faults), dry, faults) {
        var m :| 0 <= m < |t| && k in Loaded(a0, t[m].id, faults) && !Broken(t, m, faults);
        ReachedInGroup(headers, g, m, faults);
        assert t[m] in t;
      }
    }
  }

  lemma ServedBoth(headers: seq<Header>, a0: Aliases, ids: set<Id>, more: set<Id>, dry: bool, faults: Faults)
    requires ids !! more
    ensures Served(headers, a0, ids + more, dry, faults) ==
            Served(headers, a0, ids, dry, faults) + Served(headers, a0, more, dry, faults)
    ensures Served(headers, a0, ids, dry, faults) !! KeysOn(a0, more)
  {
  }

  /** While loads succeed, every alias to redirect whose save does not fail is redirected. */
  lemma ServedWhenLoaded(headers: seq<Header>, a0: Aliases, dry: bool, faults: Faults)
    requires faults.loads == map[]
    ensures Served(headers, a0, Tails(headers), dry, faults) ==
            Kept(KeysOn(a0, Tails(headers)), dry, faults)
  {
  }

  /** The aliases redirected are those that differ from before. */
  lemma MovedAreServed(plan: Plan, a0: Aliases, keys: set<Key>, moved: set<Key>)
    requires Settled(plan) && keys <= KeysOn(a0, plan.Keys)
    requires forall k :: k in moved <==> k in a0 && Redirected(plan, a0, keys)[k] != a0[k]
    ensures moved == keys
  {
    forall k | k in keys ensures Redirected(plan, a0, keys)[k] != a0[k] {
      var id := a0[k].contentId.value;
      assert id in plan && plan[id].id !in plan;
    }
  }

  /** Two reversals: the rows of a group come out in row order. */
  lemma BackInOrder(headers: seq<Header>, hash: Hash, policy: string)
    ensures var list := Reverse(Select(headers, hash, None));
            && Reverse(Select(list, hash, Some(policy))) == Select(headers, hash, Some(policy))
            && (Select(list, hash, Some(policy)) == [] <==> Select(headers, hash, Some(policy)) == [])
  {
    var list := Reverse(Select(headers, hash, None));
    SelectReverse(Select(headers, hash, None), hash, Some(policy));
    SelectTwice(headers, hash, policy);
    ReverseTwice(Select(headers, hash, Some(policy)));
    ReverseLength(Select(list, hash, Some(policy)));
  }

  /** The group has headers to merge into its first one. */
  ghost predicate Merges(headers: seq<Header>, g: Group) {
    |Select(headers, g.hash, Some(g.policy))| >= 2
  }

  /** The load of the aliases of one of the headers to merge fails. */
  ghost predicate LoadFails(headers: seq<Header>, g: Group, faults: Faults)
    requires Merges(headers, g)
  {
    exists x :: x in Select(headers, g.hash, Some(g.policy))[1..] && x.id in faults.loads
  }

  /** The error left is that of the last group with headers to merge. */
  ghost predicate ErrorOf(headers: seq<Header>, last: Option<Group>, faults: Faults, err: bool) {
    && (last.Some? ==> Merges(headers, last.value))
    && (err <==> last.Some? && LoadFails(headers, last.value, faults))
  }

  /** Among the groups of one hash visited since `last0`, the last that merges, if any. */
  ghost predicate LastOf(headers: seq<Header>, hash: Hash, visited: set<Group>,
                         last0: Option<Group>, last: Option<Group>)
  {
    if exists g :: g in visited && Merges(headers, g) then last.Some? && last.value.hash == hash else last == last0
  }

  lemma LastNext(headers: seq<Header>, visited: set<Group>, last0: Option<Group>, last: Option<Group>, g: Group)
    requires LastOf(headers, g.hash, visited, last0, last)
    ensures LastOf(headers, g.hash, visited + {g}, last0, if Merges(headers, g) then Some(g) else last)
  {
    if exists x :: x in visited && Merges(headers, x) {
      var x :| x in visited && Merges(headers, x);
      assert x in visited + {g};
    }
    assert Merges(headers, g) ==> g in visited + {g};
  }

  /** Once every policy of a hash was visited, the groups of all its tails were. */
  lemma HashVisited(headers: seq<Header>, hash: Hash, groups: set<Group>)
    requires forall p :: Select(headers, hash, Some(p)) != [] ==> Group(hash, p) in groups
    ensures forall h :: IsTail(headers, h) && h.hash == Some(hash) ==> GroupOf(h) in groups
  {
    forall h | IsTail(headers, h) && h.hash == Some(hash) ensures GroupOf(h) in groups {
      GroupMember(headers, h);
    }
  }

  /** The groups of one hash visited so far, with the policies `left` to visit. */
  ghost predicate InHash(hash: Hash, policies: set<string>, left: set<string>,
                         groups0: set<Group>, groups: set<Group>)
  {
    && left <= policies && groups0 <= groups
    && (forall g :: g in groups ==> g in groups0 || (g.hash == hash && g.policy !in left))
    && forall p :: p in policies && p !in left ==> Group(hash, p) in groups
  }

  lemma InHashNext(headers: seq<Header>, hash: Hash, policies: set<string>, left: set<string>, groups0: set<Group>,
                   groups: set<Group>, last0: Option<Group>, last: Option<Group>, p: string)
    requires InHash(hash, policies, left, groups0, groups) && p in left && forall g :: g in groups0 ==> g.hash != hash
    requires LastOf(headers, hash, groups - groups0, last0, last)
    ensures var g := Group(hash, p);
            && g !in groups && InHash(hash, policies, left - {p}, groups0, groups + {g})
            && LastOf(headers, hash, groups + {g} - groups0, last0, if Merges(headers, g) then Some(g) else last)
  {
    var g := Group(hash, p);
    LastNext(headers, groups - groups0, last0, last, g);
    assert groups + {g} - groups0 == groups - groups0 + {g};
  }

  class Base {
    var headers: seq<Header>
    var aliases: Aliases

    constructor (headers: seq<Header>, aliases: Aliases)
      ensures this.headers == headers && this.aliases == aliases
    {
      this.headers, this.aliases := headers, aliases;
    }

    /** The callback of the load: redirects one alias and reports it, unless its save fails. */
    method RedirectRow(k: Key, target: Header, dry: bool, faults: Faults, impacted: seq<string>, saved: nat,
                       ghost plan: Plan, ghost a0: Aliases, ghost keys: set<Key>)
      returns (impacted': seq<string>, saved': nat)
      requires k in a0 && k !in keys && Progress(plan, a0, aliases, dry, keys, impacted, saved)
      requires a0[k].contentId.Some? && a0[k].contentId.value in plan && target == plan[a0[k].contentId.value]
      modifies this`aliases
      ensures Progress(plan, a0, aliases, dry, keys + Kept({k}, dry, faults), impacted', saved')
    {
      ProgressOne(plan, a0, aliases, dry, keys, impacted, saved, k);
      impacted', saved' := impacted, saved;
      var ok := true;
      if !dry {
        ok := k !in faults.saves;
        if ok {
          aliases := aliases[k := aliases[k].(contentId := Some(target.id))];
        }
      }
      if ok {
        impacted' := [k.name] + impacted';
        saved' := saved' + target.size;
        assert Kept({k}, dry, faults) == {k};
      } else {
        assert keys + Kept({k}, dry, faults) == keys;
      }
    }

    /** The load of the aliases of one content. */
    method MoveAliases(target: Header, oldId: Id, dry: bool, faults: Faults, impacted: seq<string>, saved: nat,
                       ghost plan: Plan, ghost a0: Aliases, ghost keys: set<Key>)
      returns (impacted': seq<string>, saved': nat, err: bool)
      requires Settled(plan) && oldId in plan && target == plan[oldId]
      requires keys !! KeysOn(a0, {oldId}) && Progress(plan, a0, aliases, dry, keys, impacted, saved)
      modifies this`aliases
      ensures err <==> oldId in faults.loads
      ensures Progress(plan, a0, aliases, dry, keys + Kept(Loaded(a0, oldId, faults), dry, faults), impacted', saved')
    {
      var rows := set k | k in aliases && aliases[k].contentId == Some(oldId);
      RowsComplete(plan, a0, aliases, dry, keys, impacted, saved, oldId);
      assert rows == KeysOn(a0, {oldId});
      err := oldId in faults.loads;
      if err {
        rows := rows * faults.loads[oldId];
      }
      impacted', saved' := RedirectRows(rows, target, dry, faults, impacted, saved, plan, a0, keys);
    }

    method RedirectRows(rows: set<Key>, target: Header, dry: bool, faults: Faults, impacted: seq<string>, saved: nat,
                        ghost plan: Plan, ghost a0: Aliases, ghost keys: set<Key>)
      returns (impacted': seq<string>, saved': nat)
      requires forall k :: k in rows ==>
        && k in a0 && a0[k].contentId.Some? && a0[k].contentId.value in plan
        && plan[a0[k].contentId.value] == target
      requires keys !! rows && Progress(plan, a0, aliases, dry, keys, impacted, saved)
      modifies this`aliases
      ensures Progress(plan, a0, aliases, dry, keys + Kept(rows, dry, faults), impacted', saved')
      decreases |rows|
    {
      impacted', saved' := impacted, saved;
      var left := rows;
      ghost var done := keys;
      while left != {}
        invariant left <= rows && done !! left && done + Kept(left, dry, faults) == keys + Kept(rows, dry, faults)
        invariant Progress(plan, a0, aliases, dry, done, impacted', saved')
        decreases |left|
      {
        var k :| k in left;
        impacted', saved' := RedirectRow(k, target, dry, faults, impacted', saved', plan, a0, done);
        ShiftKey(done, left, k, dry, faults);
        left, done := left - {k}, done + Kept({k}, dry, faults);
      }
      assert done + Kept(left, dry, faults) == done;
    }

    /** `substitute_content_header`: stops at the first load that fails; each load overwrites the error. */
    method SubstituteHeader(newCh: Header, oldCh: seq<Header>, dry: bool, faults: Faults,
                            impacted: seq<string>, saved: nat, err0: bool,
                            ghost plan: Plan, ghost a0: Aliases, ghost keys: set<Key>)
      returns (impacted': seq<string>, saved': nat, err: bool)
      requires Settled(plan) && UniqueIds(oldCh) && keys !! KeysOn(a0, IdsOf(oldCh))
      requires forall x :: x in oldCh ==> x.id in plan && plan[x.id] == newCh
      requires Progress(plan, a0, aliases, dry, keys, impacted, saved)
      modifies this`aliases
      ensures err <==> if oldCh == [] then err0 else exists x :: x in oldCh && x.id in faults.loads
      ensures Progress(plan, a0, aliases, dry, keys + Kept(Visited(a0, oldCh, |oldCh|, faults), dry, faults),
                       impacted', saved')
    {
      impacted', saved', err := impacted, saved, err0;
      ghost var done := keys;
      for i := 0 to |oldCh|
        invariant err == (i == 0 && err0) && !Broken(oldCh, i, faults)
        invariant done == keys + Kept(Visited(a0, oldCh, i, faults), dry, faults)
        invariant Progress(plan, a0, aliases, dry, done, impacted', saved')
      {
        assert oldCh[i] in oldCh;
        NextVisit(a0, oldCh, i, keys, dry, faults);
        impacted', saved', err := MoveAliases(newCh, oldCh[i].id, dry, faults, impacted', saved', plan, a0, done);
        done := done + Kept(Loaded(a0, oldCh[i].id, faults), dry, faults);
        if err {
          VisitedStops(a0, oldCh, i + 1, |oldCh|, faults);
          return;
        }
      }
    }

    /** `get_dup_contents_headers_by_hash`: the rows by hash, each list in reverse row order, unique ones left out. */
    method DuplicatesByHash() returns (byHash: map<Hash, seq<Header>>)
      ensures forall h :: h in byHash <==> |Select(headers, h, None)| >= 2
      ensures forall h :: h in byHash ==> byHash[h] == Reverse(Select(headers, h, None))
    {
      var all: map<Hash, seq<Header>> := map[];
      for i := 0 to |headers|
        invariant forall h :: Stacked(all, h, Select(headers[..i], h, None))
      {
        var x := headers[i];
        ghost var rows, before := headers[..i], all;
        assert headers[..i + 1] == rows + [x];
        if x.hash.Some? {
          all := Push(all, x.hash.value, x);
        }
        forall h ensures Stacked(all, h, Select(rows + [x], h, None)) {
          assert Stacked(before, h, Select(rows, h, None));
          SelectAppend(rows, x, h, None);
          PushStacks(before, h, Select(rows, h, None), x);
        }
      }
      assert headers[..|headers|] == headers;
      forall h
        ensures Stacked(all, h, Select(headers, h, None))
        ensures |Reverse(Select(headers, h, None))| == |Select(headers, h, None)|
      {
        ReverseLength(Select(headers, h, None));
      }
      byHash := map h | h in all && |all[h]| != 1 :: all[h];
    }

    /** The loop of `_dedup_ch_cb`: one hash's rows by policy, back in row order. */
    method ByPolicy(hash: Hash, list: seq<Header>) returns (bySp: map<string, seq<Header>>)
      requires list == Reverse(Select(headers, hash, None))
      ensures forall p :: p in bySp <==> Select(headers, hash, Some(p)) != []
      ensures forall p :: p in bySp ==> bySp[p] == Select(headers, hash, Some(p))
    {
      bySp := map[];
      for i := 0 to |list|
        invariant forall p :: Stacked(bySp, p, Select(list[..i], hash, Some(p)))
      {
        var x := list[i];
        ghost var rows, before := list[..i], bySp;
        assert list[..i + 1] == rows + [x];
        assert x.hash == Some(hash) by {
          ReverseMembers(Select(headers, hash, None), x);
          SelectMembers(headers, hash, None, x);
          assert x in list;
        }
        bySp := Push(bySp, x.policy, x);
        forall p ensures Stacked(bySp, p, Select(rows + [x], hash, Some(p))) {
          assert Stacked(before, p, Select(rows, hash, Some(p)));
          SelectAppend(rows, x, hash, Some(p));
          PushStacks(before, p, Select(rows, hash, Some(p)), x);
        }
      }
      assert list[..|list|] == list;
      forall p ensures p in bySp <==> Select(headers, hash, Some(p)) != []
        ensures p in bySp ==> bySp[p] == Select(headers, hash, Some(p)) {
        assert Stacked(bySp, p, Select(list, hash, Some(p)));
        BackInOrder(headers, hash, p);
      }
    }

    /** One group keeps its first row and gives up the others; an error before it is forgotten if it has others. */
    method DedupGroup(ghost g: Group, l: seq<Header>, dry: bool, faults: Faults, impacted: seq<string>, saved: nat,
                      err0: bool, ghost a0: Aliases, ghost groups: set<Group>, ghost last0: Option<Group>)
      returns (impacted': seq<string>, saved': nat, err: bool, ghost last: Option<Group>)
      requires UniqueIds(headers) && l == Select(headers, g.hash, Some(g.policy)) && l != [] && g !in groups
      requires ErrorOf(headers, last0, faults, err0)
      requires Progress(PlanOf(headers), a0, aliases, dry, ServedIn(headers, a0, groups, dry, faults), impacted, saved)
      modifies this`aliases
      ensures last == (if Merges(headers, g) then Some(g) else last0) && ErrorOf(headers, last, faults, err)
      ensures Progress(PlanOf(headers), a0, aliases, dry, ServedIn(headers, a0, groups + {g}, dry, faults),
                       impacted', saved')
    {
      ghost var before := TailsIn(headers, groups);
      PlanIsSettled(headers);
      GroupIsPlanned(headers, g.hash, g.policy);
      OneMoreGroup(headers, groups, g);
      ServedBoth(headers, a0, before, IdsOf(l[1..]), dry, faults);
      GroupServed(headers, a0, g, dry, faults);
      impacted', saved', err := SubstituteHeader(l[0], l[1..], dry, faults, impacted, saved, err0,
                                                 PlanOf(headers), a0, ServedIn(headers, a0, groups, dry, faults));
      last := if |l| >= 2 then Some(g) else last0;
    }

    /** One hash: every policy group keeps its first row and gives up the others. */
    method DedupHash(hash: Hash, list: seq<Header>, dry: bool, faults: Faults, impacted: seq<string>, saved: nat,
                     err0: bool, ghost a0: Aliases, ghost groups: set<Group>, ghost last0: Option<Group>)
      returns (impacted': seq<string>, saved': nat, err: bool, ghost groups': set<Group>, ghost last: Option<Group>)
      requires UniqueIds(headers) && list == Reverse(Select(headers, hash, None))
      requires forall g :: g in groups ==> g.hash != hash
      requires ErrorOf(headers, last0, faults, err0)
      requires Progress(PlanOf(headers), a0, aliases, dry, ServedIn(headers, a0, groups, dry, faults), impacted, saved)
      modifies this`aliases
      ensures groups <= groups' && forall g :: g in groups' ==> g in groups || g.hash == hash
      ensures forall h :: IsTail(headers, h) && h.hash == Some(hash) ==> GroupOf(h) in groups'
      ensures ErrorOf(headers, last, faults, err)
      ensures LastOf(headers, hash, groups' - groups, last0, last)
      ensures Progress(PlanOf(headers), a0, aliases, dry, ServedIn(headers, a0, groups', dry, faults),
                       impacted', saved')
    {
      ghost var plan := PlanOf(headers);
      impacted', saved', err, groups', last := impacted, saved, err0, groups, last0;
      var bySp := ByPolicy(hash, list);
      var left := bySp.Keys;
      while left != {}
        invariant InHash(hash, bySp.Keys, left, groups, groups')
        invariant ErrorOf(headers, last, faults, err)
        invariant LastOf(headers, hash, groups' - groups, last0, last)
        invariant Progress(plan, a0, aliases, dry, ServedIn(headers, a0, groups', dry, faults), impacted', saved')
        decreases |left|
      {
        var p :| p in left;
        ghost var g := Group(hash, p);
        InHashNext(headers, hash, bySp.Keys, left, groups, groups', last0, last, p);
        impacted', saved', err, last := DedupGroup(g, bySp[p], dry, faults, impacted', saved', err, a0, groups', last);
        groups' := groups' + {g};
        left := left - {p};
      }
      HashVisited(headers, hash, groups');
    }

    /**
     `dedup_aliases`. Whatever fails, no alias appears, disappears or changes its meaning, a dry run
     writes nothing, and the report is about exactly the aliases that moved. Which ones move depends
     on the tables and the failures alone, not on the order of the visits; without failures a dry run
     reports what the real run does. The error left is that of the last group visited with headers
     to merge, whatever failed before.
     */
    method DedupAliases(dry: bool, faults: Faults)
      returns (saved: nat, impacted: seq<string>, err: bool, ghost last: Option<Group>)
      requires UniqueIds(headers)
      modifies this`aliases
      ensures Harmless(PlanOf(headers), old(aliases), aliases, dry)
      ensures
        var served := Served(headers, old(aliases), Tails(headers), dry, faults);
        && aliases == (if dry then old(aliases) else Redirected(PlanOf(headers), old(aliases), served))
        && Reports(PlanOf(headers), old(aliases), served, impacted, saved)
      ensures !dry ==>
        var moved := set k | k in old(aliases) && aliases[k] != old(aliases)[k];
        Reports(PlanOf(headers), old(aliases), moved, impacted, saved)
      ensures !dry && faults.loads == map[] ==>
        aliases == Redirected(PlanOf(headers), old(aliases), KeysOn(old(aliases), Tails(headers)) - faults.saves)
      ensures NoFaults(faults) ==>
        && !err
        && aliases == (if dry then old(aliases) else Deduplicated(headers, old(aliases)))
        && Reports(PlanOf(headers), old(aliases), KeysOn(old(aliases), Tails(headers)), impacted, saved)
      ensures ErrorOf(headers, last, faults, err) && (last.None? ==> forall g :: !Merges(headers, g))
      ensures err ==> exists h :: IsTail(headers, h) && h.id in faults.loads
      ensures (forall g :: Merges(headers, g) ==> LoadFails(headers, g, faults)) && (exists g :: Merges(headers, g)) ==>
        err
    {
      ghost var plan, a0 := PlanOf(headers), aliases;
      ghost var groups: set<Group> := {};
      saved, impacted, err, last := 0, [], false, None;
      var byHash := DuplicatesByHash();
      assert ServedIn(headers, a0, groups, dry, faults) == {};
      NothingYet(plan, a0, dry);
      var left := byHash.Keys;
      while left != {}
        invariant left <= byHash.Keys
        invariant forall g :: g in groups ==> g.hash !in left
        invariant forall h :: IsTail(headers, h) && h.hash.value in byHash && h.hash.value !in left ==>
          GroupOf(h) in groups
        invariant ErrorOf(headers, last, faults, err)
        invariant forall g :: g in groups && Merges(headers, g) ==> last.Some?
        invariant Progress(plan, a0, aliases, dry, ServedIn(headers, a0, groups, dry, faults), impacted, saved)
        decreases |left|
      {
        var hash :| hash in left;
        impacted, saved, err, groups, last :=
          DedupHash(hash, byHash[hash], dry, faults, impacted, saved, err, a0, groups, last);
        left := left - {hash};
      }
      AllVisited(headers, groups);
      ErrorIsATail(headers, last, faults, err);
      RunServed(headers, a0, aliases, dry, faults, impacted, saved);
    }
  }

  /** What a run that served all it could has done. */
  lemma RunServed(headers: seq<Header>, a0: Aliases, a: Aliases, dry: bool, faults: Faults,
                  impacted: seq<string>, saved: nat)
    requires UniqueIds(headers)
    requires Progress(PlanOf(headers), a0, a, dry, Served(headers, a0, Tails(headers), dry, faults), impacted, saved)
    ensures Harmless(PlanOf(headers), a0, a, dry)
    ensures !dry ==>
      var moved := set k | k in a0 && a[k] != a0[k];
      Reports(PlanOf(headers), a0, moved, impacted, saved)
    ensures !dry && faults.loads == map[] ==>
      a == Redirected(PlanOf(headers), a0, KeysOn(a0, Tails(headers)) - faults.saves)
    ensures NoFaults(faults) ==>
      Served(headers, a0, Tails(headers), dry, faults) == KeysOn(a0, Tails(headers))
  {
    var served := Served(headers, a0, Tails(headers), dry, faults);
    PlanIsSettled(headers);
    if !dry {
      var moved := set k | k in a0 && a[k] != a0[k];
      MovedAreServed(PlanOf(headers), a0, served, moved);
    }
    if faults.loads == map[] {
      ServedWhenLoaded(headers, a0, dry, faults);
    }
  }

  /** Once every tail's group was visited, every group that merges was. */
  lemma AllVisited(headers: seq<Header>, groups: set<Group>)
    requires UniqueIds(headers)
    requires forall h :: IsTail(headers, h) && |Select(headers, h.hash.value, None)| >= 2 ==> GroupOf(h) in groups
    ensures TailsIn(headers, groups) == Tails(headers)
    ensures forall g :: Merges(headers, g) ==> g in groups
  {
    forall h | h in headers && IsTail(headers, h) ensures GroupOf(h) in groups {
      TailIsDuplicate(headers, h);
    }
    forall g | Merges(headers, g) ensures g in groups {
      var h := Select(headers, g.hash, Some(g.policy))[1];
      GroupTail(headers, g, h);
    }
  }

  lemma ErrorIsATail(headers: seq<Header>, last: Option<Group>, faults: Faults, err: bool)
    requires UniqueIds(headers) && ErrorOf(headers, last, faults, err)
    ensures err ==> exists h :: IsTail(headers, h) && h.id in faults.loads
    ensures NoFaults(faults) ==> !err
  {
    if err {
      var x :| x in Select(headers, last.value.hash, Some(last.value.policy))[1..] && x.id in faults.loads;
      GroupTail(headers, last.value, x);
    }
  }

  lemma NothingYet(plan: Plan, a0: Aliases, dry: bool)
    ensures Progress(plan, a0, a0, dry, {}, [], 0)
  {
  }

  /** Every alias resolves, after any run, to a header of the same hash and policy as before. */
  lemma HarmlessKeepsMeaning(headers: seq<Header>, a0: Aliases, a: Aliases, dry: bool, k: Key, h: Header)
    requires UniqueIds(headers) && Harmless(PlanOf(headers), a0, a, dry)
    requires k in a0 && h in headers && a0[k].contentId == Some(h.id)
    ensures k in a && exists h' :: h' in headers && a[k].contentId == Some(h'.id) && (h' == h || Twins(h', h))
  {
  }

  /** Two reports on the same aliases agree: a dry run announces exactly what the real run does. */
  lemma ReportsAgree(plan: Plan, a0: Aliases, keys: set<Key>, imp1: seq<string>, saved1: nat,
                     imp2: seq<string>, saved2: nat)
    requires Reports(plan, a0, keys, imp1, saved1) && Reports(plan, a0, keys, imp2, saved2)
    ensures saved1 == saved2 && multiset(imp1) == multiset(imp2)
  {
  }
}
