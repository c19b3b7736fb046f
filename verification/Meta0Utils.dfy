/**
 The META0 prefix table and its conversions (meta0v2/meta0_utils.c).

 The table has one URL vector per two-byte prefix. An absent vector (a NULL slot)
 is the empty sequence: no operation of the source ever stores an empty vector.
 */
module Meta0Utils {
  import opened Collections

  const PREFIXES: nat := 65536

  /** A service address; addresses are compared as wholes, hosts as texts. */
  datatype Addr = Addr(host: string, port: nat)

  /** One entry of the per-service form of the table (`struct meta0_info_s`). */
  datatype Info = Info(addr: Addr, prefixes: seq<nat>)

  type Slots = seq<seq<Addr>>

  ghost predicate DistinctSlots(t: Slots) {
    forall p :: 0 <= p < |t| ==> NoDup(t[p])
  }

  /** The prefixes whose vector names `a`. */
  ghost function HeldBy(t: Slots, a: Addr): set<nat> {
    set p: nat | p < |t| && a in t[p]
  }

  function IndexOf(v: seq<Addr>, a: Addr): (i: nat)
    requires a in v
    ensures i < |v| && v[i] == a && a !in v[..i]
  {
    if v[0] == a then 0 else 1 + IndexOf(v[1..], a)
  }

  function ReplaceFirst(v: seq<Addr>, s: Addr, d: Addr): seq<Addr> {
    if s in v then v[IndexOf(v, s) := d] else v
  }

  lemma ReplaceFirstMembers(v: seq<Addr>, s: Addr, d: Addr)
    requires NoDup(v) && s in v && d !in v
    ensures NoDup(ReplaceFirst(v, s, d))
    ensures forall x :: x in ReplaceFirst(v, s, d) <==> x == d || (x in v && x != s)
  {
    var w := ReplaceFirst(v, s, d);
    assert multiset(w) == multiset(v) - multiset{s} + multiset{d};
    forall x ensures multiset(w)[x] <= 1 && (x in w <==> x == d || (x in v && x != s)) {
      assert multiset(v)[x] <= 1 && (x in w <==> x in multiset(w));
    }
  }

  // ----- the two forms of the table, compared entry by entry

  /** How often `list` sends prefix `p` to `a`. */
  ghost function Copies(list: seq<Info>, a: Addr, p: nat): nat {
    if list == [] then 0
    else (if list[0].addr == a then multiset(list[0].prefixes)[p] else 0) + Copies(list[1..], a, p)
  }

  /** `list` and `t` send every prefix to the same services, equally often. */
  ghost predicate SameAssignment(t: Slots, list: seq<Info>) {
    forall a, p: nat :: p < |t| ==> Copies(list, a, p) == multiset(t[p])[a]
  }

  ghost predicate SameEntry(t: Slots, tree: map<Addr, seq<nat>>, a: Addr, p: nat)
    requires p < |t|
  {
    multiset(t[p])[a] == if a in tree then multiset(tree[a])[p] else 0
  }

  ghost predicate TreeOf(t: Slots, tree: map<Addr, seq<nat>>) {
    && (forall a, p: nat :: p < |t| ==> SameEntry(t, tree, a, p))
    && (forall a :: a in tree ==> tree[a] != [] && forall p :: p in tree[a] ==> 0 <= p < |t|)
  }

  lemma {:induction false} CopiesAppend(l: seq<Info>, x: Info, a: Addr, p: nat)
    ensures Copies(l + [x], a, p) == Copies(l, a, p) + Copies([x], a, p)
  {
    if l == [] {
      assert l + [x] == [x];
    } else {
      assert (l + [x])[1..] == l[1..] + [x];
      CopiesAppend(l[1..], x, a, p);
    }
  }

  /** Two tables read from one list agree slot by slot up to the order of the URLs. */
  lemma RoundTrip(t: Slots, t': Slots, list: seq<Info>)
    requires |t| == |t'| && SameAssignment(t, list) && SameAssignment(t', list)
    ensures forall p :: 0 <= p < |t| ==> multiset(t'[p]) == multiset(t[p])
  {
  }

  /** With pairwise distinct URLs in each slot, a tree entry is exactly the set of prefixes held. */
  lemma TreeEntryIsHeld(t: Slots, tree: map<Addr, seq<nat>>, a: Addr)
    requires TreeOf(t, tree) && DistinctSlots(t)
    ensures a in tree <==> HeldBy(t, a) != {}
    ensures a in tree ==> NoDup(tree[a]) && (forall p :: p in tree[a] <==> p in HeldBy(t, a))
  {
    forall p: nat | p < |t| ensures (a in t[p]) == (a in tree && p in tree[a]) {
      assert SameEntry(t, tree, a, p);
    }
    if a in tree {
      assert tree[a][0] in tree[a];
      assert forall p :: p in tree[a] <==> p in HeldBy(t, a);
      forall q ensures multiset(tree[a])[q] <= 1 {
        if q in tree[a] {
          assert SameEntry(t, tree, a, q) && NoDup(t[q]);
        }
      }
    }
  }

  /** `meta0_utils_tree_add_url`. */
  function TreeAddUrl(tree: map<Addr, seq<nat>>, p: nat, url: Addr): map<Addr, seq<nat>> {
    tree[url := (if url in tree then tree[url] else []) + [p]]
  }

  /** In increasing order, equal numbers allowed. */
  ghost predicate Rising(s: seq<nat>) {
    forall i, j :: 0 <= i < j < |s| ==> s[i] <= s[j]
  }

  /** Every entry of the tree rises, up to `n`. */
  ghost predicate RisingTree(tree: map<Addr, seq<nat>>, n: nat) {
    forall a :: a in tree ==> Rising(tree[a]) && forall p :: p in tree[a] ==> p <= n
  }

  /** The `GPtrArray` of URL vectors, updated in place. */
  class PrefixTable {
    var slots: Slots

    constructor ()
      ensures slots == seq(PREFIXES, _ => [])
    {
      slots := seq(PREFIXES, _ => []);
    }

    method Add(p: nat, url: Addr)
      requires p < |slots|
      modifies this
      ensures slots == old(slots)[p := old(slots)[p] + [url]]
    {
      slots := slots[p := slots[p] + [url]];
    }

    /** Replaces the first occurrence of `s`; tells whether there was one. */
    method Replace(p: nat, s: Addr, d: Addr) returns (done: bool)
      requires p < |slots|
      modifies this
      ensures done <==> s in old(slots)[p]
      ensures slots == old(slots)[p := ReplaceFirst(old(slots)[p], s, d)]
    {
      var v := slots[p];
      for i := 0 to |v|
        invariant s !in v[..i] && slots == old(slots)
      {
        if v[i] == s {
          assert IndexOf(v, s) == i;
          slots := slots[p := v[i := d]];
          return true;
        }
      }
      return false;
    }

    /** One pass over the slots, appending every prefix to the entry of each of its URLs. */
    method ToTree() returns (tree: map<Addr, seq<nat>>)
      ensures TreeOf(slots, tree) && forall a :: a in tree ==> Rising(tree[a])
    {
      tree := map[];
      for i := 0 to |slots|
        invariant TreeOf(slots[..i], tree) && RisingTree(tree, i)
      {
        var v := slots[i];
        ghost var done := slots[..i];
        TreeMeetsSlot(done, tree);
        assert v[..0] == [];
        for j := 0 to |v|
          invariant TreeOf(done + [v[..j]], tree) && RisingTree(tree, i)
        {
          TreeGrows(done, v[..j], v[j], tree);
          TreeRises(tree, i, v[j]);
          assert v[..j] + [v[j]] == v[..j + 1];
          tree := TreeAddUrl(tree, i, v[j]);
        }
        assert v[..|v|] == v && done + [v] == slots[..i + 1];
      }
      assert slots[..|slots|] == slots;
    }

    /** `meta0_utils_array_to_list`: the tree, then one list cell per tree entry. */
    method ToList() returns (list: seq<Info>)
      ensures SameAssignment(slots, list)
      ensures NoDup(Addrs(list))
      ensures forall x :: x in list ==> forall p :: p in x.prefixes ==> 0 <= p < |slots|
      ensures list == [] <==> forall p :: 0 <= p < |slots| ==> slots[p] == []
    {
      var tree := ToTree();
      list := TreeToList(tree);
      forall a, p: nat | p < |slots| ensures Copies(list, a, p) == multiset(slots[p])[a] {
        assert SameEntry(slots, tree, a, p);
      }
      if list != [] {
        var a := list[0].addr;
        assert a in Addrs(list);
        var p := tree[a][0];
        assert p in tree[a];
        assert SameEntry(slots, tree, a, p);
      } else {
        forall p: nat | p < |slots| ensures slots[p] == [] {
          forall a ensures a !in slots[p] {
            assert a !in Addrs(list);
            assert SameEntry(slots, tree, a, p);
          }
          EmptyOrMember(slots[p]);
        }
      }
    }
  }

  ghost function Addrs(list: seq<Info>): seq<Addr> {
    seq(|list|, i requires 0 <= i < |list| => list[i].addr)
  }

  lemma TreeMeetsSlot(done: Slots, tree: map<Addr, seq<nat>>)
    requires TreeOf(done, tree)
    ensures TreeOf(done + [[]], tree)
  {
    forall a, p: nat | p < |done| + 1 ensures SameEntry(done + [[]], tree, a, p) {
      if p < |done| {
        assert SameEntry(done, tree, a, p);
      } else {
        assert (done + [[]])[p] == [] && (a in tree ==> p !in tree[a]);
      }
    }
  }

  lemma TreeRises(tree: map<Addr, seq<nat>>, p: nat, url: Addr)
    requires RisingTree(tree, p)
    ensures RisingTree(TreeAddUrl(tree, p, url), p)
  {
    var before := if url in tree then tree[url] else [];
    assert forall i :: 0 <= i < |before| ==> before[i] in before;
  }

  lemma TreeGrows(done: Slots, v: seq<Addr>, url: Addr, tree: map<Addr, seq<nat>>)
    requires TreeOf(done + [v], tree)
    ensures TreeOf(done + [v + [url]], TreeAddUrl(tree, |done|, url))
  {
    var t, t' := done + [v], done + [v + [url]];
    var tree' := TreeAddUrl(tree, |done|, url);
    forall a, p: nat | p < |t'| ensures SameEntry(t', tree', a, p) {
      assert SameEntry(t, tree, a, p);
    }
  }

  /** `meta0_utils_tree_to_list`: visits every entry once and prepends its cell. */
  method TreeToList(tree: map<Addr, seq<nat>>) returns (list: seq<Info>)
    ensures NoDup(Addrs(list))
    ensures forall a :: a in Addrs(list) <==> a in tree
    ensures forall x :: x in list ==> x.addr in tree && x.prefixes == tree[x.addr]
    ensures forall a, p: nat :: Copies(list, a, p) == if a in tree then multiset(tree[a])[p] else 0
  {
    list := [];
    var left := tree.Keys;
    while left != {}
      invariant left <= tree.Keys
      invariant NoDup(Addrs(list))
      invariant forall a :: a in Addrs(list) <==> a in tree && a !in left
      invariant forall x :: x in list ==> x.addr in tree && x.prefixes == tree[x.addr]
      invariant forall a, p: nat ::
        Copies(list, a, p) == if a in tree && a !in left then multiset(tree[a])[p] else 0
    {
      var k :| k in left;
      assert Addrs([Info(k, tree[k])] + list) == [k] + Addrs(list);
      assert k !in Addrs(list);
      list := [Info(k, tree[k])] + list;
      left := left - {k};
    }
  }

  /** `meta0_utils_list_to_array`. */
  method ListToArray(list: seq<Info>) returns (t: PrefixTable)
    requires forall x :: x in list ==> forall p :: p in x.prefixes ==> 0 <= p < PREFIXES
    ensures fresh(t) && |t.slots| == PREFIXES
    ensures SameAssignment(t.slots, list)
  {
    t := new PrefixTable();
    for i := 0 to |list|
      invariant fresh(t) && |t.slots| == PREFIXES
      invariant SameAssignment(t.slots, list[..i])
    {
      var pfx := list[i].prefixes;
      ghost var before := list[..i];
      var url := list[i].addr;
      ListGrows(t.slots, before, url, []);
      for j := 0 to |pfx|
        invariant fresh(t) && |t.slots| == PREFIXES
        invariant SameAssignment(t.slots, before + [Info(url, pfx[..j])])
      {
        assert pfx[j] in pfx;
        ghost var s := t.slots;
        t.Add(pfx[j], url);
        SlotGrows(s, before, url, pfx[..j], pfx[j]);
        assert pfx[..j] + [pfx[j]] == pfx[..j + 1];
      }
      assert pfx[..|pfx|] == pfx && before + [list[i]] == list[..i + 1];
    }
    assert list[..|list|] == list;
  }

  lemma ListGrows(t: Slots, before: seq<Info>, url: Addr, none: seq<nat>)
    requires SameAssignment(t, before) && none == []
    ensures SameAssignment(t, before + [Info(url, none)])
  {
    forall a, p: nat | p < |t| ensures Copies(before + [Info(url, none)], a, p) == multiset(t[p])[a] {
      CopiesAppend(before, Info(url, none), a, p);
    }
  }

  lemma SlotGrows(t: Slots, before: seq<Info>, url: Addr, done: seq<nat>, p: nat)
    requires p < |t| && SameAssignment(t, before + [Info(url, done)])
    ensures SameAssignment(t[p := t[p] + [url]], before + [Info(url, done + [p])])
  {
    var t' := t[p := t[p] + [url]];
    forall a, q: nat | q < |t'| ensures Copies(before + [Info(url, done + [p])], a, q) == multiset(t'[q])[a] {
      CopiesAppend(before, Info(url, done), a, q);
      CopiesAppend(before, Info(url, done + [p]), a, q);
      assert Copies(before + [Info(url, done)], a, q) == multiset(t[q])[a];
    }
  }

  /** Array to list and back: every prefix has its URLs again, in some order. */
  method ThereAndBack(t: PrefixTable) returns (t': PrefixTable)
    requires |t.slots| == PREFIXES
    ensures fresh(t') && |t'.slots| == PREFIXES
    ensures forall p :: 0 <= p < PREFIXES ==> multiset(t'.slots[p]) == multiset(t.slots[p])
  {
    var list := t.ToList();
    t' := ListToArray(list);
    RoundTrip(t.slots, t'.slots, list);
  }
}
