/**
 The prefixes managed by one META1 (meta1v2/meta1_prefixes.c) and what its server does
 with them (meta1v2/meta1_server.c): a bitmap that must agree with the table it speeds up.
 */
module Meta1Prefixes {
  import opened Collections
  import opened Meta0Utils

  const CACHE_SIZE: nat := 8192

  // ----- bits

  /** `0x01 << k`. */
  function Mask(k: nat): bv8
    requires k < 8
  {
    if k == 0 then 0x01 else if k == 1 then 0x02 else if k == 2 then 0x04 else if k == 3 then 0x08 else
    if k == 4 then 0x10 else if k == 5 then 0x20 else if k == 6 then 0x40 else 0x80
  }

  /** `_cache_is_managed`. */
  predicate Bit(cache: seq<bv8>, p: nat)
    requires |cache| == CACHE_SIZE && p < PREFIXES
  {
    cache[p / 8] & Mask(p % 8) != 0
  }

  /** Setting the bit of one prefix changes no other. */
  lemma SetBit(cache: seq<bv8>, p: nat, q: nat)
    requires |cache| == CACHE_SIZE && p < PREFIXES && q < PREFIXES
    ensures Bit(cache[p / 8 := cache[p / 8] | Mask(p % 8)], q) <==> q == p || Bit(cache, q)
  {
  }

  /** `_cache_manage`. */
  method Manage(cache: array<bv8>, p: nat)
    requires cache.Length == CACHE_SIZE && p < PREFIXES
    modifies cache
    ensures forall q: nat :: q < PREFIXES ==> (Bit(cache[..], q) <==> q == p || old(Bit(cache[..], q)))
  {
    ghost var before := cache[..];
    cache[p / 8] := cache[p / 8] | Mask(p % 8);
    assert cache[..] == before[p / 8 := before[p / 8] | Mask(p % 8)];
    forall q: nat | q < PREFIXES ensures Bit(cache[..], q) <==> q == p || Bit(before, q) {
      SetBit(before, p, q);
    }
  }

  /** `_cache_from_m0l`: the bits of the prefixes that the list sends to `local`. */
  method CacheFromList(list: seq<Info>, local: Addr) returns (cache: array<bv8>)
    requires forall x :: x in list ==> forall p :: p in x.prefixes ==> 0 <= p < PREFIXES
    ensures fresh(cache) && cache.Length == CACHE_SIZE
    ensures forall q: nat :: q < PREFIXES ==> (Bit(cache[..], q) <==> Copies(list, local, q) > 0)
  {
    cache := new bv8[CACHE_SIZE](_ => 0);
    for i := 0 to |list|
      invariant cache.Length == CACHE_SIZE && fresh(cache)
      invariant forall q: nat :: q < PREFIXES ==> (Bit(cache[..], q) <==> Copies(list[..i], local, q) > 0)
    {
      var x := list[i];
      assert list[..i + 1] == list[..i] + [x];
      ghost var before := cache[..];
      if x.addr == local {
        for j := 0 to |x.prefixes|
          invariant cache.Length == CACHE_SIZE && fresh(cache)
          invariant forall q: nat :: q < PREFIXES ==> (Bit(cache[..], q) <==> Bit(before, q) || q in x.prefixes[..j])
        {
          assert x.prefixes[j] in x.prefixes;
          assert x.prefixes[..j + 1] == x.prefixes[..j] + [x.prefixes[j]];
          Manage(cache, x.prefixes[j]);
        }
        assert x.prefixes[..|x.prefixes|] == x.prefixes;
      }
      forall q: nat | q < PREFIXES ensures Bit(cache[..], q) <==> Copies(list[..i + 1], local, q) > 0 {
        CopiesAppend(list[..i], x, local, q);
      }
    }
    assert list[..|list|] == list;
  }

  // ----- the prefix set

  ghost function Bits(cache: seq<bv8>): set<nat>
    requires |cache| == CACHE_SIZE
  {
    set p: nat | p < PREFIXES && Bit(cache, p)
  }

  /** The prefixes whose vector names the local service. */
  ghost function Served(t: Slots, local: Addr): set<nat> {
    set p: nat | p < |t| && local in t[p]
  }

  /** Strictly ascending lists, the form of every scan over the prefixes. */
  ghost predicate Ascending(s: seq<nat>) {
    forall i, j :: 0 <= i < j < |s| ==> s[i] < s[j]
  }

  ghost predicate Lists(s: seq<nat>, content: set<nat>) {
    Ascending(s) && forall p :: p in s <==> p in content
  }

  lemma ListsNext(s: seq<nat>, content: set<nat>, p: nat)
    requires Lists(s, content) && forall q :: q in content ==> q < p
    ensures Lists(s + [p], content + {p})
  {
    forall i | 0 <= i < |s| ensures s[i] < p {
      assert s[i] in s;
    }
  }

  ghost function Below(content: set<nat>, n: nat): set<nat> {
    set p | p in content && p < n
  }

  lemma BelowNext(content: set<nat>, n: nat)
    ensures Below(content, n + 1) == if n in content then Below(content, n) + {n} else Below(content, n)
  {
  }

  function Without(v: seq<Addr>, a: Addr): seq<Addr> {
    if v == [] then []
    else Without(v[..|v| - 1], a) + if v[|v| - 1] == a then [] else [v[|v| - 1]]
  }

  class PrefixSet {
    const local: Addr
    var cache: array<bv8>
    var byPrefix: Option<Slots>

    ghost predicate Valid()
      reads this, cache
    {
      && cache.Length == CACHE_SIZE
      && match byPrefix
         case None => Bits(cache[..]) == {}
         case Some(t) => |t| == PREFIXES && Bits(cache[..]) == Served(t, local)
    }

    ghost function Managed(): set<nat>
      reads this, cache
      requires cache.Length == CACHE_SIZE
    {
      Bits(cache[..])
    }

    /** `meta1_prefixes_init`. */
    constructor (local: Addr)
      ensures Valid() && fresh(cache) && this.local == local && byPrefix == None
    {
      this.local := local;
      cache := new bv8[CACHE_SIZE](_ => 0);
      byPrefix := None;
    }

    /** `meta1_prefixes_is_managed`: the bitmap answers for the table. */
    method IsManaged(p: nat) returns (rc: bool)
      requires Valid() && p < PREFIXES
      ensures rc <==> p in Managed()
      ensures rc <==> byPrefix.Some? && local in byPrefix.value[p]
    {
      rc := Bit(cache[..], p);
    }

    /** `_cache_load_from_m0`; `answer` is what the META0 replied, or its failure. */
    method Load(answer: Option<seq<Info>>) returns (ok: bool, updated: Option<seq<nat>>)
      requires Valid()
      requires answer.Some? ==> forall x :: x in answer.value ==> forall p :: p in x.prefixes ==> 0 <= p < PREFIXES
      modifies this`cache, this`byPrefix
      ensures Valid() && (cache == old(cache) || fresh(cache))
      ensures ok <==> answer.Some?
      ensures answer.None? || answer.value == [] ==>
        byPrefix == old(byPrefix) && Managed() == old(Managed()) && updated == None
      ensures answer.Some? && answer.value != [] ==> byPrefix.Some? && SameAssignment(byPrefix.value, answer.value)
      ensures updated.Some? <==> old(byPrefix).Some? && answer.Some? && answer.value != []
      ensures updated.Some? ==>
        Lists(updated.value, (old(Managed()) - Managed()) + (Managed() - old(Managed())))
    {
      if answer.None? {
        return false, None;
      }
      var list := answer.value;
      if list == [] {
        return true, None;
      }
      var newCache := CacheFromList(list, local);
      var table := ListToArray(list);
      ok, updated := true, None;
      if byPrefix.Some? {
        var diff := Difference(cache, newCache);
        updated := Some(diff);
      }
      forall p: nat | p < PREFIXES ensures p in Bits(newCache[..]) <==> p in Served(table.slots, local) {
        assert Copies(list, local, p) == multiset(table.slots[p])[local];
      }
      byPrefix := Some(table.slots);
      cache := newCache;
    }

    /** The loop comparing the two bitmaps. */
    static method Difference(old0: array<bv8>, new0: array<bv8>) returns (diff: seq<nat>)
      requires old0.Length == CACHE_SIZE && new0.Length == CACHE_SIZE
      ensures Lists(diff, (Bits(old0[..]) - Bits(new0[..])) + (Bits(new0[..]) - Bits(old0[..])))
    {
      ghost var all := (Bits(old0[..]) - Bits(new0[..])) + (Bits(new0[..]) - Bits(old0[..]));
      diff := [];
      assert Below(all, 0) == {};
      for p := 0 to PREFIXES
        invariant Lists(diff, Below(all, p))
      {
        BelowNext(all, p);
        assert p in all <==> Bit(old0[..], p) != Bit(new0[..], p);
        if Bit(old0[..], p) != Bit(new0[..], p) {
          ListsNext(diff, Below(all, p), p);
          diff := diff + [p];
        }
      }
      assert Below(all, PREFIXES) == all;
    }

    /** `meta1_prefixes_manage_all`. */
    method ManageAll()
      requires Valid()
      modifies this`byPrefix, cache
      ensures Valid() && byPrefix == Some(seq(PREFIXES, _ => [local]))
      ensures forall p: nat :: p < PREFIXES ==> p in Managed()
    {
      forall i | 0 <= i < cache.Length {
        cache[i] := 0xFF;
      }
      byPrefix := Some(seq(PREFIXES, _ => [local]));
      forall p: nat | p < PREFIXES ensures Bit(cache[..], p) {
        AllBits(p % 8);
        assert cache[..][p / 8] == 0xFF;
      }
    }

    /** `meta1_prefixes_get_all`: the managed prefixes, in ascending order. */
    method GetAll() returns (all: seq<nat>)
      requires Valid()
      ensures Lists(all, Managed())
    {
      all := [];
      assert Below(Managed(), 0) == {};
      for p := 0 to PREFIXES
        invariant Lists(all, Below(Managed(), p))
      {
        BelowNext(Managed(), p);
        var rc := IsManaged(p);
        if rc {
          ListsNext(all, Below(Managed(), p), p);
          all := all + [p];
        }
      }
      assert Below(Managed(), PREFIXES) == Managed();
    }

    /** `_reload_prefixes`: loads, then leaves the elections of the prefixes that were lost. */
    method Reload(answer: Option<seq<Info>>, init: bool) returns (ok: bool, exited: seq<nat>)
      requires Valid()
      requires answer.Some? ==> forall x :: x in answer.value ==> forall p :: p in x.prefixes ==> 0 <= p < PREFIXES
      modifies this`cache, this`byPrefix
      ensures Valid() && (ok <==> answer.Some?)
      ensures init || !ok ==> exited == []
      ensures ok && !init ==> Lists(exited, old(Managed()) - Managed())
    {
      ghost var before := Managed();
      var updated;
      ok, updated := Load(answer);
      exited := [];
      if ok && !init && updated.Some? {
        ghost var lost := before - Managed();
        var l := updated.value;
        assert l[..0] == [];
        for i := 0 to |l|
          invariant Ascending(exited) && forall p :: p in exited <==> p in l[..i] && p in lost
          modifies {}
        {
          assert l[..i + 1] == l[..i] + [l[i]] && l[i] in l;
          var managed := IsManaged(l[i]);
          if !managed {
            forall k | 0 <= k < |exited| ensures exited[k] < l[i] {
              assert exited[k] in exited;
            }
            exited := exited + [l[i]];
          }
        }
        assert l[..|l|] == l;
      }
    }

    /** `_get_peers` once the table is loaded: the other services of a managed prefix. */
    method GetPeers(p: nat) returns (peers: Option<seq<Addr>>)
      requires Valid() && byPrefix.Some? && p < PREFIXES
      ensures peers.Some? <==> p in Managed()
      ensures peers.Some? ==> peers.value == Without(byPrefix.value[p], local)
    {
      var src := byPrefix.value[p];
      var matched, others := false, [];
      for i := 0 to |src|
        invariant matched <==> local in src[..i]
        invariant others == Without(src[..i], local)
      {
        assert src[..i + 1][..i] == src[..i] && src[..i + 1] == src[..i] + [src[i]];
        if src[i] == local {
          matched := true;
        } else {
          others := others + [src[i]];
        }
      }
      assert src[..|src|] == src;
      peers := if matched then Some(others) else None;
    }
  }

  lemma AllBits(k: nat)
    requires k < 8
    ensures (0xFF as bv8) & Mask(k) != 0
  {
  }

  /** The peers of a managed prefix are its other services, each as often as the table names it. */
  lemma {:induction false} WithoutMeans(v: seq<Addr>, a: Addr)
    ensures multiset(Without(v, a)) == multiset(v)[a := 0]
  {
    if v == [] {
    } else {
      WithoutMeans(v[..|v| - 1], a);
      assert v == v[..|v| - 1] + [v[|v| - 1]];
    }
  }
}
