/**
 Deduplication of aliases in a META2 base (meta2v2/meta2_dedup_utils.c): aliases of contents
 with equal hash and policy are redirected to one of them.
 */
module Meta2Dedup {
  import opened Collections

  type Id = nat
  type Hash = nat

  /** A row of CONTENTS_HEADERS; an unset policy reads as the empty text. */
  datatype Header = Header(id: Id, policy: string, hash: Option<Hash>, size: nat)

  /** The primary key of ALIASES, and the rest of the row. */
  datatype Key = Key(name: string, version: int)

  datatype Alias = Alias(contentId: Option<Id>, mdsys: string, deleted: bool)

  type Aliases = map<Key, Alias>

  // ----- which header stands for which

  ghost predicate UniqueIds(headers: seq<Header>) {
    forall i, j :: 0 <= i < j < |headers| ==> headers[i].id != headers[j].id
  }

  predicate Twins(a: Header, b: Header) {
    a.hash.Some? && a.hash == b.hash && a.policy == b.policy
  }

  /** The first row with the hash and policy of `h`. */
  ghost function First(headers: seq<Header>, h: Header): (r: Header)
    requires h in headers && h.hash.Some?
    ensures r in headers && Twins(r, h)
  {
    if Twins(headers[0], h) then headers[0] else First(headers[1..], h)
  }

  lemma {:induction false} FirstIsShared(headers: seq<Header>, a: Header, b: Header)
    requires a in headers && b in headers && Twins(a, b)
    ensures First(headers, a) == First(headers, b)
  {
    if !Twins(headers[0], a) {
      FirstIsShared(headers[1..], a, b);
    }
  }

  /** It is the earliest: no row before it has that hash and policy. */
  lemma {:induction false} FirstIsEarliest(headers: seq<Header>, h: Header, i: nat)
    requires i < |headers| && Twins(headers[i], h) && h in headers
    requires forall j :: 0 <= j < i ==> !Twins(headers[j], h)
    ensures First(headers, h) == headers[i]
  {
    if i == 0 {
    } else {
      FirstIsEarliest(headers[1..], h, i - 1);
    }
  }

  /** The headers that are not the first of their kind. */
  ghost predicate IsTail(headers: seq<Header>, h: Header) {
    h in headers && h.hash.Some? && First(headers, h) != h
  }

  ghost function Tails(headers: seq<Header>): set<Id> {
    set h | h in headers && IsTail(headers, h) :: h.id
  }

  lemma IdsIdentify(headers: seq<Header>, a: Header, b: Header)
    requires UniqueIds(headers) && a in headers && b in headers && a.id == b.id
    ensures a == b
  {
  }

  /** A header gives way iff an earlier row has its hash and policy; one without a hash never does. */
  lemma TailMeans(headers: seq<Header>, i: nat)
    requires UniqueIds(headers) && i < |headers|
    ensures headers[i].id in Tails(headers) <==> exists j :: 0 <= j < i && Twins(headers[j], headers[i])
  {
    var h := headers[i];
    if exists j :: 0 <= j < i && Twins(headers[j], h) {
      var j := Earliest(headers, h, i);
      FirstIsEarliest(headers, h, j);
      assert IsTail(headers, h);
    } else {
      if h.hash.Some? {
        FirstIsEarliest(headers, h, i);
      }
      forall x | x in headers && x.id == h.id ensures !IsTail(headers, x) {
        IdsIdentify(headers, x, h);
      }
    }
  }

  lemma {:induction false} Earliest(headers: seq<Header>, h: Header, i: nat) returns (j: nat)
    requires i <= |headers| && exists j :: 0 <= j < i && Twins(headers[j], h)
    ensures j < i && Twins(headers[j], h) && forall x :: 0 <= x < j ==> !Twins(headers[x], h)
  {
    if exists x :: 0 <= x < i - 1 && Twins(headers[x], h) {
      j := Earliest(headers, h, i - 1);
    } else {
      j := i - 1;
    }
  }

  ghost function HeaderOf(headers: seq<Header>, id: Id): (h: Header)
    requires id in Tails(headers)
    ensures h.id == id && IsTail(headers, h)
  {
    var h :| h in headers && IsTail(headers, h) && h.id == id;
    h
  }

  /** Where the aliases of a tail header go. */
  ghost function Target(headers: seq<Header>, id: Id): Header
    requires id in Tails(headers)
  {
    First(headers, HeaderOf(headers, id))
  }

  // ----- what a deduplication amounts to

  /** For each tail content, the header its aliases go to. */
  type Plan = map<Id, Header>

  ghost function PlanOf(headers: seq<Header>): Plan {
    map id | id in Tails(headers) :: Target(headers, id)
  }

  /** The aliases that reference one of the contents `ids`. */
  ghost function KeysOn(aliases: Aliases, ids: set<Id>): set<Key> {
    set k | k in aliases && aliases[k].contentId.Some? && aliases[k].contentId.value in ids
  }

  /** An alias of a tail header, sent to the header that stands for it. */
  ghost function Redirect(plan: Plan, a: Alias): Alias {
    if a.contentId.Some? && a.contentId.value in plan then a.(contentId := Some(plan[a.contentId.value].id)) else a
  }

  /** The alias table once the aliases `keys` are redirected. */
  ghost function Redirected(plan: Plan, aliases: Aliases, keys: set<Key>): Aliases {
    map k | k in aliases :: if k in keys then Redirect(plan, aliases[k]) else aliases[k]
  }

  /** The outcome of a complete deduplication. */
  ghost function Deduplicated(headers: seq<Header>, aliases: Aliases): Aliases {
    Redirected(PlanOf(headers), aliases, KeysOn(aliases, Tails(headers)))
  }

  ghost function Gain(plan: Plan, aliases: Aliases, k: Key): nat {
    if k in aliases && aliases[k].contentId.Some? && aliases[k].contentId.value in plan then
      plan[aliases[k].contentId.value].size
    else 0
  }

  /** Each alias redirected counts for the size of the first row of its kind. */
  lemma GainIsSizeOfFirst(headers: seq<Header>, aliases: Aliases, k: Key, h: Header)
    requires UniqueIds(headers) && k in aliases && aliases[k].contentId == Some(h.id) && h in headers
    ensures Gain(PlanOf(headers), aliases, k) == if IsTail(headers, h) then First(headers, h).size else 0
  {
    if h.id in Tails(headers) {
      IdsIdentify(headers, HeaderOf(headers, h.id), h);
    }
  }

  ghost function Gains(plan: Plan, aliases: Aliases, keys: set<Key>): nat {
    if keys == {} then 0
    else var k :| k in keys; Gain(plan, aliases, k) + Gains(plan, aliases, keys - {k})
  }

  lemma {:induction false} GainsPick(plan: Plan, aliases: Aliases, keys: set<Key>, k: Key)
    requires k in keys
    ensures Gains(plan, aliases, keys) == Gain(plan, aliases, k) + Gains(plan, aliases, keys - {k})
    decreases |keys|
  {
    var x :| x in keys && Gains(plan, aliases, keys) == Gain(plan, aliases, x) + Gains(plan, aliases, keys - {x});
    if x != k {
      GainsPick(plan, aliases, keys - {x}, k);
      GainsPick(plan, aliases, keys - {k}, x);
      assert keys - {x} - {k} == keys - {k} - {x};
    }
  }

  ghost function Named(keys: set<Key>, name: string): set<Key> {
    set k | k in keys && k.name == name
  }

  /** `impacted` names every alias of `keys` once, `saved` adds up the sizes of their new contents. */
  ghost predicate Reports(plan: Plan, aliases: Aliases, keys: set<Key>, impacted: seq<string>, saved: nat) {
    && (forall n :: multiset(impacted)[n] == |Named(keys, n)|)
    && saved == Gains(plan, aliases, keys)
  }

  lemma ReportOne(plan: Plan, aliases: Aliases, keys: set<Key>, impacted: seq<string>, saved: nat, k: Key)
    requires Reports(plan, aliases, keys, impacted, saved) && k !in keys
    ensures Reports(plan, aliases, keys + {k}, [k.name] + impacted, saved + Gain(plan, aliases, k))
  {
    forall n ensures multiset([k.name] + impacted)[n] == |Named(keys + {k}, n)| {
      assert multiset([k.name] + impacted) == multiset{k.name} + multiset(impacted);
      assert Named(keys + {k}, n) == if n == k.name then Named(keys, n) + {k} else Named(keys, n);
    }
    GainsPick(plan, aliases, keys + {k}, k);
    assert keys + {k} - {k} == keys;
  }

  // ----- properties of the outcome

  /** No target is itself to be replaced. */
  ghost predicate Settled(plan: Plan) {
    forall id :: id in plan ==> plan[id].id !in plan
  }

  lemma PlanIsSettled(headers: seq<Header>)
    requires UniqueIds(headers)
    ensures Settled(PlanOf(headers))
  {
    forall id | id in Tails(headers) ensures Target(headers, id).id !in Tails(headers) {
      var h := HeaderOf(headers, id);
      var t := First(headers, h);
      FirstIsShared(headers, t, h);
      assert !IsTail(headers, t);
      forall x | x in headers && x.id == t.id ensures !IsTail(headers, x) {
        IdsIdentify(headers, x, t);
      }
    }
  }

  /** A second run moves nothing. */
  lemma Idempotent(headers: seq<Header>, aliases: Aliases)
    requires UniqueIds(headers)
    ensures KeysOn(Deduplicated(headers, aliases), Tails(headers)) == {}
    ensures Deduplicated(headers, Deduplicated(headers, aliases)) == Deduplicated(headers, aliases)
  {
    PlanIsSettled(headers);
    var plan, once := PlanOf(headers), Deduplicated(headers, aliases);
    forall k | k in aliases ensures once[k] == Redirect(plan, aliases[k]) && k !in KeysOn(once, Tails(headers)) {
    }
  }

  /** Whatever was redirected still resolves to a header of the same hash and policy. */
  lemma MeaningKept(headers: seq<Header>, id: Id, h: Header)
    requires UniqueIds(headers) && id in Tails(headers) && h in headers && h.id == id
    ensures PlanOf(headers)[id] in headers && Twins(PlanOf(headers)[id], h)
  {
  }

  /** After a complete run no two aliases end on different headers sharing hash and policy. */
  lemma NoDuplicatesLeft(headers: seq<Header>, aliases: Aliases, k1: Key, k2: Key, h1: Header, h2: Header)
    requires UniqueIds(headers) && k1 in aliases && k2 in aliases
    requires Deduplicated(headers, aliases)[k1].contentId == Some(h1.id)
    requires Deduplicated(headers, aliases)[k2].contentId == Some(h2.id)
    requires h1 in headers && h2 in headers && Twins(h1, h2)
    ensures h1 == h2
  {
    Idempotent(headers, aliases);
    var once := Deduplicated(headers, aliases);
    assert k1 !in KeysOn(once, Tails(headers)) && k2 !in KeysOn(once, Tails(headers));
    FirstIsShared(headers, h1, h2);
    assert !IsTail(headers, h1) && !IsTail(headers, h2);
  }

  // ----- lists of headers

  ghost function Reverse<T>(s: seq<T>): seq<T> {
    if s == [] then [] else Reverse(s[1..]) + [s[0]]
  }

  lemma {:induction false} ReverseAppend<T>(s: seq<T>, x: T)
    ensures Reverse(s + [x]) == [x] + Reverse(s)
  {
    if s == [] {
    } else {
      assert (s + [x])[1..] == s[1..] + [x];
      ReverseAppend(s[1..], x);
    }
  }

  lemma {:induction false} ReverseTwice<T>(s: seq<T>)
    ensures Reverse(Reverse(s)) == s
  {
    if s == [] {
    } else {
      ReverseAppend(Reverse(s[1..]), s[0]);
      ReverseTwice(s[1..]);
    }
  }

  lemma {:induction false} ReverseLength<T>(s: seq<T>)
    ensures |Reverse(s)| == |s|
  {
    if s == [] {
    } else {
      ReverseLength(s[1..]);
    }
  }

  lemma {:induction false} ReverseMembers<T>(s: seq<T>, x: T)
    ensures x in Reverse(s) <==> x in s
  {
    if s == [] {
    } else {
      ReverseMembers(s[1..], x);
      assert s == [s[0]] + s[1..];
    }
  }

  /** The list stored under `key` is `rows` in reverse; an empty one is absent. */
  ghost predicate Stacked<K>(m: map<K, seq<Header>>, key: K, rows: seq<Header>) {
    (key in m <==> rows != []) && (key in m ==> m[key] == Reverse(rows))
  }

  /** `g_slist_prepend` on the list of a key. */
  function Push<K>(m: map<K, seq<Header>>, key: K, x: Header): map<K, seq<Header>> {
    m[key := [x] + if key in m then m[key] else []]
  }

  lemma PushStacks<K>(m: map<K, seq<Header>>, key: K, rows: seq<Header>, x: Header)
    requires Stacked(m, key, rows)
    ensures Stacked(Push(m, key, x), key, rows + [x])
  {
    ReverseAppend(rows, x);
    assert rows == [] ==> Reverse(rows) == [];
  }

  predicate Fits(x: Header, hash: Hash, policy: Option<string>) {
    x.hash == Some(hash) && (policy.Some? ==> x.policy == policy.value)
  }

  /** The headers with a given hash and, when given, a given policy, in row order. */
  ghost function Select(headers: seq<Header>, hash: Hash, policy: Option<string>): seq<Header> {
    if headers == [] then []
    else (if Fits(headers[0], hash, policy) then [headers[0]] else []) + Select(headers[1..], hash, policy)
  }

  lemma {:induction false} SelectAppend(s: seq<Header>, x: Header, hash: Hash, policy: Option<string>)
    ensures Select(s + [x], hash, policy) ==
            if Fits(x, hash, policy) then Select(s, hash, policy) + [x] else Select(s, hash, policy)
  {
    if s == [] {
      assert s + [x] == [x] && [x][1..] == [];
      assert Select([], hash, policy) == [];
    } else {
      assert (s + [x])[1..] == s[1..] + [x] && (s + [x])[0] == s[0];
      SelectAppend(s[1..], x, hash, policy);
    }
  }

  lemma {:induction false} SelectReverse(s: seq<Header>, hash: Hash, policy: Option<string>)
    ensures Select(Reverse(s), hash, policy) == Reverse(Select(s, hash, policy))
  {
    if s == [] {
    } else {
      var rest := Select(s[1..], hash, policy);
      SelectAppend(Reverse(s[1..]), s[0], hash, policy);
      SelectReverse(s[1..], hash, policy);
      if Fits(s[0], hash, policy) {
        assert ([s[0]] + rest)[1..] == rest;
      } else {
        assert Select(s, hash, policy) == rest;
      }
    }
  }

  lemma {:induction false} SelectTwice(s: seq<Header>, hash: Hash, policy: string)
    ensures Select(Select(s, hash, None), hash, Some(policy)) == Select(s, hash, Some(policy))
  {
    if s == [] {
    } else {
      var rest := Select(s[1..], hash, None);
      if Fits(s[0], hash, None) {
        assert Select(s, hash, None)[1..] == rest;
      } else {
        assert Select(s, hash, None) == rest;
      }
      SelectTwice(s[1..], hash, policy);
    }
  }

  lemma {:induction false} SelectMembers(s: seq<Header>, hash: Hash, policy: Option<string>, x: Header)
    ensures x in Select(s, hash, policy) <==> x in s && Fits(x, hash, policy)
  {
    if s == [] {
    } else {
      SelectMembers(s[1..], hash, policy, x);
      assert x in s <==> x == s[0] || x in s[1..];
    }
  }

  /** A group starts with the header that stands for it; the others are tails. */
  lemma {:induction false} GroupHead(s: seq<Header>, hash: Hash, policy: string, x: Header)
    requires x in Select(s, hash, Some(policy))
    ensures x in s && x.hash.Some? && First(s, x) == Select(s, hash, Some(policy))[0]
  {
    SelectMembers(s, hash, Some(policy), x);
    if !Fits(s[0], hash, Some(policy)) {
      GroupHead(s[1..], hash, policy, x);
    }
  }

  lemma {:induction false} GroupIds(s: seq<Header>, hash: Hash, policy: Option<string>)
    requires UniqueIds(s)
    ensures UniqueIds(Select(s, hash, policy))
  {
    if s == [] {
    } else {
      GroupIds(s[1..], hash, policy);
      var rest := Select(s[1..], hash, policy);
      forall j | 0 <= j < |rest| ensures rest[j].id != s[0].id {
        SelectMembers(s[1..], hash, policy, rest[j]);
        var k :| 0 <= k < |s[1..]| && s[1..][k] == rest[j];
        assert s[k + 1] == rest[j];
      }
    }
  }

  // ----- groups of headers sharing hash and policy

  datatype Group = Group(hash: Hash, policy: string)

  ghost function GroupOf(h: Header): Group
    requires h.hash.Some?
  {
    Group(h.hash.value, h.policy)
  }

  /** The tails of some groups. */
  ghost function TailsIn(headers: seq<Header>, groups: set<Group>): set<Id> {
    set h | h in headers && IsTail(headers, h) && GroupOf(h) in groups :: h.id
  }

  ghost function IdsOf(l: seq<Header>): set<Id> {
    set x | x in l :: x.id
  }

  /** All headers of a group but the first go to the first. */
  lemma GroupIsPlanned(headers: seq<Header>, hash: Hash, policy: string)
    requires UniqueIds(headers) && Select(headers, hash, Some(policy)) != []
    ensures var l := Select(headers, hash, Some(policy));
            && UniqueIds(l[1..])
            && forall x :: x in l[1..] ==> x.id in PlanOf(headers) && PlanOf(headers)[x.id] == l[0]
  {
    var l := Select(headers, hash, Some(policy));
    GroupIds(headers, hash, Some(policy));
    forall x | x in l[1..] ensures x.id in PlanOf(headers) && PlanOf(headers)[x.id] == l[0] {
      var i :| 0 <= i < |l[1..]| && l[1..][i] == x;
      assert l[i + 1] == x && x.id != l[0].id;
      GroupHead(headers, hash, policy, x);
      assert IsTail(headers, x);
      IdsIdentify(headers, HeaderOf(headers, x.id), x);
    }
  }

  lemma GroupMember(headers: seq<Header>, h: Header)
    requires IsTail(headers, h)
    ensures var l := Select(headers, h.hash.value, Some(h.policy)); l != [] && h in l[1..]
  {
    var l := Select(headers, h.hash.value, Some(h.policy));
    SelectMembers(headers, h.hash.value, Some(h.policy), h);
    GroupHead(headers, h.hash.value, h.policy, h);
    assert l == [l[0]] + l[1..];
  }

  /** The rows of a group after its first are tails. */
  lemma GroupTail(headers: seq<Header>, g: Group, x: Header)
    requires UniqueIds(headers)
    requires var l := Select(headers, g.hash, Some(g.policy)); l != [] && x in l[1..]
    ensures x in headers && IsTail(headers, x) && GroupOf(x) == g
  {
    var l := Select(headers, g.hash, Some(g.policy));
    GroupIds(headers, g.hash, Some(g.policy));
    var i :| 0 <= i < |l[1..]| && l[1..][i] == x;
    assert l[i + 1] == x && x.id != l[0].id;
    SelectMembers(headers, g.hash, Some(g.policy), x);
    GroupHead(headers, g.hash, g.policy, x);
  }

  /** Handling one more group adds exactly its tails. */
  lemma OneMoreGroup(headers: seq<Header>, groups: set<Group>, g: Group)
    requires UniqueIds(headers) && g !in groups && Select(headers, g.hash, Some(g.policy)) != []
    ensures var tail := IdsOf(Select(headers, g.hash, Some(g.policy))[1..]);
            TailsIn(headers, groups + {g}) == TailsIn(headers, groups) + tail && tail !! TailsIn(headers, groups)
  {
    var l := Select(headers, g.hash, Some(g.policy));
    forall x | x in l[1..] ensures x in headers && IsTail(headers, x) && GroupOf(x) == g {
      GroupTail(headers, g, x);
    }
    forall h | h in headers && IsTail(headers, h) && GroupOf(h) == g ensures h in l[1..] {
      GroupMember(headers, h);
    }
    forall x, h | x in l[1..] && h in headers && IsTail(headers, h) && GroupOf(h) in groups ensures x.id != h.id {
      if x.id == h.id {
        IdsIdentify(headers, x, h);
      }
    }
  }

  /** A tail shares its hash with another row. */
  lemma TailIsDuplicate(headers: seq<Header>, h: Header)
    requires UniqueIds(headers) && IsTail(headers, h)
    ensures |Select(headers, h.hash.value, None)| >= 2
  {
    var l := Select(headers, h.hash.value, None);
    SelectMembers(headers, h.hash.value, None, h);
    SelectMembers(headers, h.hash.value, None, First(headers, h));
  }
}
