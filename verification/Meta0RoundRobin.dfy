/**
 The round-robin initialisation of the META0 base (`__fill` and `_fill`, meta0v2/meta0_backend.c):
 one row per prefix and replica, under the primary key (prefix, addr).
 */
module Meta0RoundRobin {
  import opened Collections
  import opened Meta0Utils

  /** The rank, among `n`, of the URL that shift `s` gives to prefix `p`. */
  function Turn(n: nat, p: nat, s: nat): (k: nat)
    requires n > 0
    ensures k < n
  {
    (p + s) % n
  }

  function Pick(urls: seq<Addr>, p: nat, s: nat): Addr
    requires urls != []
  {
    urls[Turn(|urls|, p, s)]
  }

  /** The URLs a prefix gets, for the shifts below `hi` and not below `lo`, the highest shift first. */
  ghost function Given(urls: seq<Addr>, p: nat, lo: nat, hi: nat): seq<Addr>
    requires urls != [] && lo <= hi
    decreases hi - lo
  {
    if lo == hi then [] else Given(urls, p, lo + 1, hi) + [Pick(urls, p, lo)]
  }

  /** The `j`-th URL given to a prefix is that of the `j`-th highest shift. */
  lemma {:induction false} GivenAt(urls: seq<Addr>, p: nat, lo: nat, hi: nat, j: nat)
    requires urls != [] && lo <= hi && j < hi - lo
    ensures |Given(urls, p, lo, hi)| == hi - lo && Given(urls, p, lo, hi)[j] == urls[(p + (hi - 1 - j)) % |urls|]
    decreases hi - lo
  {
    if j < hi - lo - 1 {
      GivenAt(urls, p, lo + 1, hi, j);
    } else if lo + 1 < hi {
      GivenAt(urls, p, lo + 1, hi, 0);
    }
  }

  /** Every prefix got its rows, in the order of the passes. */
  ghost predicate RowsAdded(t: Slots, t0: Slots, urls: seq<Addr>, replicas: nat) {
    urls != [] && |t| == |t0| && forall p: nat, j: nat :: p < |t| && j < replicas ==> RowAt(t, t0, urls, replicas, p, j)
  }

  /** The `j`-th row added to a prefix. */
  ghost predicate RowAt(t: Slots, t0: Slots, urls: seq<Addr>, replicas: nat, p: nat, j: nat)
    requires urls != [] && p < |t| == |t0| && j < replicas
  {
    |t[p]| == |t0[p]| + replicas && t[p][|t0[p]| + j] == urls[(p + (replicas - 1 - j)) % |urls|]
  }

  lemma ReachedAdds(t: Slots, t0: Slots, urls: seq<Addr>, replicas: nat)
    requires Reached(t, t0, urls, 0, replicas)
    ensures RowsAdded(t, t0, urls, replicas)
  {
    forall p: nat, j: nat | p < |t| && j < replicas ensures RowAt(t, t0, urls, replicas, p, j) {
      GivenAt(urls, p, 0, replicas, j);
    }
  }

  /** The first `i` prefixes have one shift more than the others. */
  ghost predicate Partial(t: Slots, t0: Slots, urls: seq<Addr>, lo: nat, hi: nat, i: nat) {
    && urls != [] && lo < hi && |t| == |t0| == PREFIXES
    && (forall p :: 0 <= p < i && p < PREFIXES ==> t[p] == t0[p] + Given(urls, p, lo, hi))
    && (forall p :: i <= p < PREFIXES ==> t[p] == t0[p] + Given(urls, p, lo + 1, hi))
  }

  /** Every prefix has the URLs of the shifts from `lo` on. */
  ghost predicate Reached(t: Slots, t0: Slots, urls: seq<Addr>, lo: nat, hi: nat) {
    && urls != [] && lo <= hi && |t| == |t0|
    && forall p :: 0 <= p < |t| ==> t[p] == t0[p] + Given(urls, p, lo, hi)
  }

  lemma DistinctMeansNoClash(t: Slots, t0: Slots, urls: seq<Addr>, replicas: nat)
    requires Reached(t, t0, urls, 0, replicas) && DistinctSlots(t)
    ensures NoClash(t0, urls, replicas)
  {
  }

  /** The rows to insert clash neither among themselves nor with the rows present. */
  ghost predicate NoClash(t0: Slots, urls: seq<Addr>, replicas: nat)
    requires urls != []
  {
    forall p :: 0 <= p < |t0| ==> NoDup(t0[p] + Given(urls, p, 0, replicas))
  }

  lemma ClashFound(t0: Slots, urls: seq<Addr>, lo: nat, hi: nat, p: nat)
    requires urls != [] && lo < hi && p < |t0|
    requires Pick(urls, p, lo) in t0[p] + Given(urls, p, lo + 1, hi)
    ensures !NoClash(t0, urls, hi)
  {
    var now := t0[p] + Given(urls, p, lo + 1, hi);
    assert t0[p] + Given(urls, p, lo, hi) == now + [Pick(urls, p, lo)];
    assert multiset(now + [Pick(urls, p, lo)])[Pick(urls, p, lo)] >= 2;
    ClashStays(t0[p], urls, p, lo, hi, Pick(urls, p, lo));
  }

  lemma {:induction false} ClashStays(slot: seq<Addr>, urls: seq<Addr>, p: nat, lo: nat, hi: nat, a: Addr)
    requires urls != [] && lo <= hi && multiset(slot + Given(urls, p, lo, hi))[a] >= 2
    ensures multiset(slot + Given(urls, p, 0, hi))[a] >= 2
    decreases lo
  {
    if lo == 0 {
    } else {
      assert slot + Given(urls, p, lo - 1, hi) == slot + Given(urls, p, lo, hi) + [Pick(urls, p, lo - 1)];
      ClashStays(slot, urls, p, lo - 1, hi, a);
    }
  }

  class Base {
    var rows: Slots

    /** `__fill`: one pass over the prefixes, until a row violates the primary key. */
    method FillPass(urls: seq<Addr>, shift: nat, ghost t0: Slots, ghost replicas: nat) returns (ok: bool)
      requires urls != [] && shift < replicas && Partial(rows, t0, urls, shift, replicas, 0) && DistinctSlots(rows)
      modifies this
      ensures |rows| == PREFIXES && DistinctSlots(rows)
      ensures ok ==> Partial(rows, t0, urls, shift, replicas, PREFIXES)
      ensures !ok ==> !NoClash(t0, urls, replicas)
    {
      for i := 0 to PREFIXES
        invariant Partial(rows, t0, urls, shift, replicas, i) && DistinctSlots(rows)
      {
        var url := Pick(urls, i, shift);
        if url in rows[i] {
          ClashFound(t0, urls, shift, replicas, i);
          return false;
        }
        AddNoDup(rows[i], url);
        rows := rows[i := rows[i] + [url]];
      }
      ok := true;
    }

    /** `_fill`: succeeds iff no row clashes, and then adds exactly the rows of all passes; else adds nothing. */
    method Fill(urls: seq<Addr>, replicas: nat, begins: bool, commits: bool) returns (ok: bool)
      requires 0 < |urls| < PREFIXES && |rows| == PREFIXES && DistinctSlots(rows)
      modifies this
      ensures ok <==> begins && commits && NoClash(old(rows), urls, replicas)
      ensures ok ==> Reached(rows, old(rows), urls, 0, replicas) && RowsAdded(rows, old(rows), urls, replicas)
      ensures !ok ==> rows == old(rows)
    {
      if !begins {
        return false;
      }
      var saved := rows;
      var left: nat := replicas;
      ok := true;
      while left > 0 && ok
        invariant left <= replicas && |rows| == PREFIXES && DistinctSlots(rows)
        invariant ok ==> Reached(rows, saved, urls, left, replicas)
        invariant !ok ==> !NoClash(saved, urls, replicas)
        decreases left
      {
        left := left - 1;
        ok := FillPass(urls, left, saved, replicas);
      }
      assert ok ==> NoClash(saved, urls, replicas) by {
        if ok {
          DistinctMeansNoClash(rows, saved, urls, replicas);
        }
      }
      if !ok || !commits {
        rows := saved;
        return false;
      }
      ReachedAdds(rows, saved, urls, replicas);
    }
  }

  // ---------------------------------------------------------------------------------------------
  // What the passes give: different URLs for a prefix, balanced URLs

  lemma {:induction false} GivenMember(urls: seq<Addr>, p: nat, lo: nat, hi: nat, a: Addr)
    requires urls != [] && lo <= hi
    ensures |Given(urls, p, lo, hi)| == hi - lo
    ensures a in Given(urls, p, lo, hi) <==> exists s :: lo <= s < hi && Pick(urls, p, s) == a
    decreases hi - lo
  {
    if lo == hi {
    } else {
      GivenMember(urls, p, lo + 1, hi, a);
    }
  }

  lemma MulGap(a: nat, b: nat, n: nat)
    requires a < b
    ensures a * n + n <= b * n
  {
    assert b * n == a * n + (b - a) * n;
    if b - a > 1 {
      assert (b - a) * n == n + (b - a - 1) * n;
    }
  }

  /** Division with remainder is unique. */
  lemma Unique(n: nat, q: nat, r: nat, q': nat, r': nat)
    requires r < n && r' < n && q * n + r == q' * n + r'
    ensures q == q' && r == r'
  {
    if q < q' {
      MulGap(q, q', n);
    } else if q' < q {
      MulGap(q', q, n);
    }
  }

  lemma DivMod(n: nat, q: nat, r: nat, m: nat)
    requires r < n && m == q * n + r
    ensures m / n == q && m % n == r
  {
    assert m == (m / n) * n + m % n;
    Unique(n, q, r, m / n, m % n);
  }

  /** Shifts closer than the number of URLs pick different URLs. */
  lemma DifferentTurns(n: nat, p: nat, s: nat, s': nat)
    requires n > 0 && s < s' < s + n
    ensures Turn(n, p, s) != Turn(n, p, s')
  {
    var x, y := p + s, p + s';
    var q, q' := x / n, y / n;
    assert x == q * n + x % n && y == q' * n + y % n;
    if q < q' {
      MulGap(q, q', n);
    } else if q' < q {
      MulGap(q', q, n);
    }
  }

  lemma DifferentPicks(urls: seq<Addr>, p: nat, s: nat, s': nat)
    requires urls != [] && NoDup(urls) && s < s' < s + |urls|
    ensures Pick(urls, p, s) != Pick(urls, p, s')
  {
    var i, j := Turn(|urls|, p, s), Turn(|urls|, p, s');
    DifferentTurns(|urls|, p, s, s');
    if i < j {
      NoDupAt(urls, i, j);
    } else {
      NoDupAt(urls, j, i);
    }
  }

  lemma {:induction false} GivenDistinct(urls: seq<Addr>, p: nat, lo: nat, hi: nat)
    requires urls != [] && NoDup(urls) && lo <= hi <= lo + |urls|
    ensures NoDup(Given(urls, p, lo, hi))
    decreases hi - lo
  {
    if lo == hi {
    } else {
      GivenDistinct(urls, p, lo + 1, hi);
      GivenMember(urls, p, lo + 1, hi, Pick(urls, p, lo));
      forall s | lo + 1 <= s < hi ensures Pick(urls, p, s) != Pick(urls, p, lo) {
        DifferentPicks(urls, p, lo, s);
      }
      AddNoDup(Given(urls, p, lo + 1, hi), Pick(urls, p, lo));
    }
  }

  ghost function BlankTable(): Slots {
    seq(PREFIXES, i => [])
  }

  /** On a blank base the fill of distinct URLs works iff there are as many URLs as replicas. */
  lemma FitsIffEnough(urls: seq<Addr>, replicas: nat)
    requires 0 < |urls| && NoDup(urls)
    ensures NoClash(BlankTable(), urls, replicas) <==> replicas <= |urls|
  {
    var n := |urls|;
    forall p | 0 <= p < PREFIXES ensures [] + Given(urls, p, 0, replicas) == Given(urls, p, 0, replicas) {
    }
    if replicas <= n {
      forall p | 0 <= p < PREFIXES ensures NoDup(BlankTable()[p] + Given(urls, p, 0, replicas)) {
        GivenDistinct(urls, p, 0, replicas);
      }
    } else {
      GivenMember(urls, 0, 1, replicas, Pick(urls, 0, 0));
      DivMod(n, 0, 0, 0);
      DivMod(n, 1, 0, n);
      assert Pick(urls, 0, n) == Pick(urls, 0, 0);
      ClashFound(BlankTable(), urls, 0, replicas, 0);
    }
  }

  /** The prefixes below `m` that shift `s` sends to the URL at `k`. */
  ghost function Share(n: nat, k: nat, s: nat, m: nat): set<nat>
    requires n > 0
  {
    set p: nat | p < m && Turn(n, p, s) == k
  }

  /** How many numbers below `m` leave the remainder `k`. */
  ghost function Remainders(n: nat, k: nat, m: nat): nat
    requires n > 0
  {
    m / n + if m % n > k then 1 else 0
  }

  lemma NextRemainder(n: nat, k: nat, m: nat)
    requires k < n
    ensures Remainders(n, k, m + 1) == Remainders(n, k, m) + if m % n == k then 1 else 0
  {
    var q, r := m / n, m % n;
    assert m == q * n + r;
    if r + 1 == n {
      DivMod(n, q + 1, 0, m + 1);
    } else {
      DivMod(n, q, r + 1, m + 1);
    }
  }

  lemma {:induction false} ShareSize(n: nat, k: nat, s: nat, m: nat)
    requires k < n
    ensures |Share(n, k, s, m)| == Remainders(n, k, m + s) - Remainders(n, k, s)
  {
    if m == 0 {
      assert Share(n, k, s, m) == {};
    } else {
      ShareSize(n, k, s, m - 1);
      NextRemainder(n, k, m - 1 + s);
      if Turn(n, m - 1, s) == k {
        assert Share(n, k, s, m) == Share(n, k, s, m - 1) + {m - 1};
      } else {
        assert Share(n, k, s, m) == Share(n, k, s, m - 1);
      }
    }
  }

  lemma RemaindersAt(n: nat, k: nat, q: nat, r: nat, m: nat)
    requires k < n && r < n && m == q * n + r
    ensures Remainders(n, k, m) == q + if r > k then 1 else 0
  {
    DivMod(n, q, r, m);
  }

  lemma Ceiling(n: nat, q: nat, r: nat, m: nat)
    requires r < n && m == q * n + r
    ensures (m + n - 1) / n == q + if r == 0 then 0 else 1
  {
    if r == 0 {
      DivMod(n, q, n - 1, m + n - 1);
    } else {
      assert (q + 1) * n == q * n + n;
      DivMod(n, q + 1, r - 1, m + n - 1);
    }
  }

  lemma Shifted(n: nat, k: nat, q: nat, r: nat, s: nat, m: nat)
    requires k < n && r < n && s < n && m == q * n + r
    ensures Remainders(n, k, m + s) ==
      if r + s < n then q + (if r + s > k then 1 else 0) else q + 1 + if r + s - n > k then 1 else 0
  {
    if r + s < n {
      RemaindersAt(n, k, q, r + s, m + s);
    } else {
      assert (q + 1) * n == q * n + n;
      RemaindersAt(n, k, q + 1, r + s - n, m + s);
    }
  }

  lemma ShareOf(n: nat, k: nat, s: nat, q: nat, r: nat, m: nat)
    requires k < n && s < n && r < n && m == q * n + r
    ensures q <= |Share(n, k, s, m)| <= q + if r == 0 then 0 else 1
  {
    ShareSize(n, k, s, m);
    assert Remainders(n, k, s) == if s > k then 1 else 0 by {
      RemaindersAt(n, k, 0, s, s);
    }
    Shifted(n, k, q, r, s, m);
  }

  /** One pass gives a URL the floor or the ceiling of the even share. */
  lemma ShareBounds(n: nat, k: nat, s: nat, m: nat)
    requires k < n && s < n
    ensures m / n <= |Share(n, k, s, m)| <= (m + n - 1) / n
  {
    assert m == (m / n) * n + m % n;
    ShareOf(n, k, s, m / n, m % n, m);
    Ceiling(n, m / n, m % n, m);
  }

  /** The prefixes that some shift below `r` sends to the URL at `k`. */
  ghost function Shares(n: nat, k: nat, r: nat, m: nat): set<nat>
    requires n > 0
  {
    set p: nat | p < m && Reaches(n, p, k, r)
  }

  ghost predicate Reaches(n: nat, p: nat, k: nat, r: nat)
    requires n > 0
  {
    exists s :: 0 <= s < r && Turn(n, p, s) == k
  }

  /** No prefix gets the same URL from two shifts. */
  lemma SharesNext(n: nat, k: nat, r: nat, m: nat)
    requires k < n && r < n
    ensures |Shares(n, k, r + 1, m)| == |Shares(n, k, r, m)| + |Share(n, k, r, m)|
  {
    var next := r + 1;
    forall p: nat ensures Reaches(n, p, k, next) <==> Reaches(n, p, k, r) || Turn(n, p, r) == k {
      assert Turn(n, p, r) == k ==> Reaches(n, p, k, next);
    }
    forall p: nat | Reaches(n, p, k, r) ensures Turn(n, p, r) != k {
      var s :| 0 <= s < r && Turn(n, p, s) == k;
      DifferentTurns(n, p, s, r);
    }
    assert Shares(n, k, next, m) == Shares(n, k, r, m) + Share(n, k, r, m);
    assert Shares(n, k, r, m) !! Share(n, k, r, m);
  }

  lemma OneMoreTime(r: nat, x: nat)
    ensures (r + 1) * x == r * x + x
  {
  }

  lemma {:induction false} SharesBounds(n: nat, k: nat, r: nat, m: nat)
    requires k < n && r <= n
    ensures r * (m / n) <= |Shares(n, k, r, m)| <= r * ((m + n - 1) / n)
  {
    if r == 0 {
      assert Shares(n, k, r, m) == {};
    } else {
      SharesBounds(n, k, r - 1, m);
      ShareBounds(n, k, r - 1, m);
      SharesNext(n, k, r - 1, m);
      OneMoreTime(r - 1, m / n);
      OneMoreTime(r - 1, (m + n - 1) / n);
    }
  }

  /** Every URL gets `replicas` times the even share, rounded down or up in each pass. */
  lemma Balanced(t: Slots, urls: seq<Addr>, replicas: nat, k: nat)
    requires NoDup(urls) && k < |urls| && replicas <= |urls| && Reached(t, BlankTable(), urls, 0, replicas)
    ensures replicas * (PREFIXES / |urls|) <= |HeldBy(t, urls[k])| <= replicas * ((PREFIXES + |urls| - 1) / |urls|)
  {
    var n := |urls|;
    forall p: nat | p < PREFIXES ensures urls[k] in t[p] <==> Reaches(n, p, k, replicas) {
      assert t[p] == Given(urls, p, 0, replicas);
      GivenMember(urls, p, 0, replicas, urls[k]);
      forall s | 0 <= s < replicas ensures Pick(urls, p, s) == urls[k] <==> Turn(n, p, s) == k {
        var j := Turn(n, p, s);
        if j < k {
          NoDupAt(urls, j, k);
        } else if k < j {
          NoDupAt(urls, k, j);
        }
      }
    }
    assert HeldBy(t, urls[k]) == Shares(n, k, replicas, PREFIXES);
    SharesBounds(n, k, replicas, PREFIXES);
  }

  /** Every prefix gets `replicas` different URLs, all of the list. */
  lemma Different(t: Slots, urls: seq<Addr>, replicas: nat, p: nat)
    requires NoDup(urls) && 0 < |urls| && replicas <= |urls| && p < PREFIXES
    requires Reached(t, BlankTable(), urls, 0, replicas)
    ensures |t[p]| == replicas && NoDup(t[p]) && forall a :: a in t[p] ==> a in urls
  {
    assert t[p] == Given(urls, p, 0, replicas);
    GivenDistinct(urls, p, 0, replicas);
    GivenMember(urls, p, 0, replicas, urls[0]);
    forall a | a in t[p] ensures a in urls {
      GivenMember(urls, p, 0, replicas, a);
    }
  }
}
