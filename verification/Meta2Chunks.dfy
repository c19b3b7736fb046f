/**
 Substitution of chunks in the contents of a META2 base (`substitute_chunk` and
 `dedup_chunks_of_alias`, meta2v2/meta2_dedup_utils.c).
 */
module Meta2Chunks {
  import opened Collections

  /** Chunk identifiers, hashes and positions are compared as wholes. */
  datatype Name = Name(text: string)

  /** A row of CONTENTS; all three columns form the primary key. */
  datatype Content = Content(contentId: nat, chunkId: Name, position: Name)

  ghost function Elements(s: seq<Name>): set<Name> {
    set x | x in s
  }

  ghost function Rename(r: Content, olds: set<Name>, survivor: Name): Content {
    if r.chunkId in olds then r.(chunkId := survivor) else r
  }

  /** The rows with every old chunk replaced by the new one. */
  ghost function Renamed(rows: set<Content>, olds: set<Name>, survivor: Name): set<Content> {
    set r | r in rows :: Rename(r, olds, survivor)
  }

  /** The rows that name one of the given chunks. */
  ghost function NamedBy(rows: set<Content>, olds: set<Name>): set<Content> {
    set r | r in rows && r.chunkId in olds
  }

  /** What the procedure does with one old chunk: a chunk replaced by itself takes its rows along. */
  ghost function Step(rows: set<Content>, old0: Name, survivor: Name): set<Content> {
    if old0 == survivor then rows - NamedBy(rows, {survivor}) else Renamed(rows, {old0}, survivor)
  }

  ghost function Steps(rows: set<Content>, olds: seq<Name>, survivor: Name): set<Content> {
    if olds == [] then rows
    else Step(Steps(rows, olds[..|olds| - 1], survivor), olds[|olds| - 1], survivor)
  }

  /** With the new chunk not among the old ones, the substitution is exactly a renaming. */
  lemma {:induction false} StepsRename(rows: set<Content>, olds: seq<Name>, survivor: Name)
    requires survivor !in olds
    ensures Steps(rows, olds, survivor) == Renamed(rows, Elements(olds), survivor)
  {
    if olds == [] {
      RenameNothing(rows, survivor);
    } else {
      var head, last := olds[..|olds| - 1], olds[|olds| - 1];
      assert olds == head + [last];
      StepsRename(rows, head, survivor);
      RenameMore(rows, Elements(head), last, survivor);
      assert Elements(olds) == Elements(head) + {last};
    }
  }

  lemma RenameNothing(rows: set<Content>, survivor: Name)
    ensures Renamed(rows, Elements([]), survivor) == rows
  {
  }

  lemma RenameMore(rows: set<Content>, olds: set<Name>, last: Name, survivor: Name)
    requires survivor !in olds && survivor != last
    ensures Renamed(Renamed(rows, olds, survivor), {last}, survivor) == Renamed(rows, olds + {last}, survivor)
  {
    forall r | r in rows
      ensures Rename(Rename(r, olds, survivor), {last}, survivor) == Rename(r, olds + {last}, survivor)
    {
    }
    var mid := Renamed(rows, olds, survivor);
    forall x | x in Renamed(rows, olds + {last}, survivor) ensures x in Renamed(mid, {last}, survivor) {
      var r :| r in rows && x == Rename(r, olds + {last}, survivor);
      assert Rename(r, olds, survivor) in mid;
    }
    forall x | x in Renamed(mid, {last}, survivor) ensures x in Renamed(rows, olds + {last}, survivor) {
      var m :| m in mid && x == Rename(m, {last}, survivor);
      var r :| r in rows && m == Rename(r, olds, survivor);
    }
  }

  /** Up to and including the last occurrence of the new chunk, the rows of the old chunks are lost. */
  lemma {:induction false} StepsLose(rows: set<Content>, olds: seq<Name>, survivor: Name)
    requires olds != [] && olds[|olds| - 1] == survivor
    ensures Steps(rows, olds, survivor) == rows - NamedBy(rows, Elements(olds))
  {
    var head := olds[..|olds| - 1];
    assert olds == head + [survivor] && Elements(olds) == Elements(head) + {survivor};
    StepsElsewhere(rows, head, survivor);
  }

  /** Rows of chunks that are neither old nor new are never touched. */
  lemma {:induction false} StepsElsewhere(rows: set<Content>, olds: seq<Name>, survivor: Name)
    ensures forall r: Content :: r.chunkId != survivor ==>
      (r in Steps(rows, olds, survivor) <==> r in rows && r.chunkId !in olds)
  {
    if olds == [] {
    } else {
      var head, last := olds[..|olds| - 1], olds[|olds| - 1];
      assert olds == head + [last];
      StepsElsewhere(rows, head, survivor);
      var mid := Steps(rows, head, survivor);
      forall r: Content | r.chunkId != survivor
        ensures r in Step(mid, last, survivor) <==> r in mid && r.chunkId != last
      {
        if r in mid && r.chunkId != last {
          assert Rename(r, {last}, survivor) == r;
        }
      }
    }
  }

  lemma {:induction false} StepsSplit(rows: set<Content>, a: seq<Name>, b: seq<Name>, survivor: Name)
    ensures Steps(rows, a + b, survivor) == Steps(Steps(rows, a, survivor), b, survivor)
  {
    if b == [] {
      assert a + b == a;
    } else {
      assert (a + b)[..|a + b| - 1] == a + b[..|b| - 1];
      StepsSplit(rows, a, b[..|b| - 1], survivor);
    }
  }

  /** A later old chunk stands at the same place of the same content. */
  ghost predicate Covered(rows: set<Content>, r: Content, later: set<Name>) {
    exists x :: x in rows && x.chunkId in later && x.contentId == r.contentId && x.position == r.position
  }

  /**
   When the new chunk is among the old ones, the substitution is a renaming iff every row named up to
   its last occurrence is also named, at the same place, by a chunk replaced later.
   */
  lemma SelfSubstitution(rows: set<Content>, olds: seq<Name>, k: nat, survivor: Name)
    requires k < |olds| && olds[k] == survivor && survivor !in olds[k + 1..]
    ensures Steps(rows, olds, survivor) == Renamed(rows, Elements(olds), survivor) <==>
      forall r :: r in rows && r.chunkId in olds[..k + 1] ==>
        Covered(rows, r, Elements(olds[k + 1..]) - Elements(olds[..k + 1]))
  {
    var early, late := olds[..k + 1], olds[k + 1..];
    var lost := Elements(early);
    assert olds == early + late && Elements(olds) == lost + Elements(late);
    StepsSplit(rows, early, late, survivor);
    StepsLose(rows, early, survivor);
    var kept := rows - NamedBy(rows, lost);
    StepsRename(kept, late, survivor);
    RenamedApart(rows, lost, Elements(late), survivor);
  }

  lemma RenamedApart(rows: set<Content>, lost: set<Name>, late: set<Name>, survivor: Name)
    requires survivor in lost && survivor !in late
    ensures Renamed(rows - NamedBy(rows, lost), late, survivor) == Renamed(rows, lost + late, survivor) <==>
      forall r :: r in rows && r.chunkId in lost ==> Covered(rows, r, late - lost)
  {
    var kept := rows - NamedBy(rows, lost);
    var left, right := Renamed(kept, late, survivor), Renamed(rows, lost + late, survivor);
    forall r | r in kept ensures Rename(r, late, survivor) == Rename(r, lost + late, survivor) {
    }
    forall x | x in left ensures x in right {
      var r :| r in kept && x == Rename(r, late, survivor);
    }
    forall r | r in rows && r.chunkId in lost
      ensures r.(chunkId := survivor) in right && (r.(chunkId := survivor) in left <==> Covered(rows, r, late - lost)) {
      assert Rename(r, lost + late, survivor) == r.(chunkId := survivor);
      if r.(chunkId := survivor) in left {
        var x :| x in kept && Rename(x, late, survivor) == r.(chunkId := survivor);
      }
      if Covered(rows, r, late - lost) {
        var x :| x in rows && x.chunkId in late - lost && x.contentId == r.contentId && x.position == r.position;
        assert x in kept && Rename(x, late, survivor) == r.(chunkId := survivor);
      }
    }
    forall x | x in right && x !in left
      ensures exists r :: r in rows && r.chunkId in lost && x == r.(chunkId := survivor)
    {
      var r :| r in rows && x == Rename(r, lost + late, survivor);
      assert r in kept ==> Rename(r, late, survivor) in left;
    }
  }

  // ---------------------------------------------------------------------------------------------
  // What the substitution means: the hashes a content names at each position

  /** Some row of the content names, at the position, a chunk of the hash. */
  ghost predicate At(rows: set<Content>, hashes: map<Name, Name>, c: nat, position: Name, hash: Name) {
    exists r :: r in rows && r.contentId == c && r.position == position &&
                r.chunkId in hashes && hashes[r.chunkId] == hash
  }

  /** Every content keeps, at every position, the same set of chunk hashes. */
  ghost predicate SameMeaning(rows: set<Content>, now: set<Content>, hashes: map<Name, Name>) {
    forall c, p, h :: At(rows, hashes, c, p, h) <==> At(now, hashes, c, p, h)
  }

  lemma MeaningChains(rows: set<Content>, mid: set<Content>, now: set<Content>, hashes: map<Name, Name>)
    requires SameMeaning(rows, mid, hashes) && SameMeaning(mid, now, hashes)
    ensures SameMeaning(rows, now, hashes)
  {
    forall c, p, h ensures At(rows, hashes, c, p, h) <==> At(now, hashes, c, p, h) {
      assert At(rows, hashes, c, p, h) <==> At(mid, hashes, c, p, h);
    }
  }

  ghost predicate SameHash(hashes: map<Name, Name>, a: Name, b: Name) {
    a in hashes && b in hashes && hashes[a] == hashes[b]
  }

  /** Saving a row under a chunk of the same hash, with or without the deletion of the old row. */
  lemma RowMeaning(rows: set<Content>, now: set<Content>, hashes: map<Name, Name>, r: Content, survivor: Name)
    requires r in rows && SameHash(hashes, r.chunkId, survivor)
    requires
      || now == rows + {r.(chunkId := survivor)}
      || (now == rows + {r.(chunkId := survivor)} - {r} && r.chunkId != survivor)
    ensures SameMeaning(rows, now, hashes)
  {
  }

  // ---------------------------------------------------------------------------------------------
  // The procedures

  /** The steps of the base that fail: loads per chunk, saves and deletions per row. */
  datatype Faults = Faults(loads: set<Name>, saves: set<Content>, deletes: set<Content>)

  const NO_FAULTS := Faults({}, {}, {})

  class Base {
    var contents: set<Content>

    /** One row of an old chunk: saved under the new chunk, then deleted. */
    method SubstituteRow(r: Content, survivor: Name, faults: Faults, ghost hashes: map<Name, Name>)
      requires r in contents
      modifies this
      ensures r.(chunkId := survivor) in faults.saves ==> contents == old(contents)
      ensures r.(chunkId := survivor) !in faults.saves ==>
        contents == old(contents) + {r.(chunkId := survivor)} - if r in faults.deletes then {} else {r}
      ensures r.chunkId != survivor && SameHash(hashes, r.chunkId, survivor) ==>
        SameMeaning(old(contents), contents, hashes)
    {
      if r.(chunkId := survivor) in faults.saves {
        return;
      }
      contents := contents + {r.(chunkId := survivor)};
      if r !in faults.deletes {
        contents := contents - {r};
      }
      if r.chunkId != survivor && SameHash(hashes, r.chunkId, survivor) {
        RowMeaning(old(contents), contents, hashes, r, survivor);
      }
    }

    /** The rows of one old chunk, in any order. */
    method SubstituteOne(old0: Name, survivor: Name, faults: Faults, ghost hashes: map<Name, Name>)
      modifies this
      ensures contents == StepUnder(old(contents), old0, survivor, faults)
      ensures old0 != survivor && SameHash(hashes, old0, survivor) ==> SameMeaning(old(contents), contents, hashes)
    {
      var todo := set r | r in contents && r.chunkId == old0;
      ghost var done: set<Content> := {};
      while todo != {}
        invariant todo <= contents && forall r :: r in todo ==> r.chunkId == old0
        invariant done + todo == NamedBy(old(contents), {old0}) && done !! todo
        invariant contents == Progress(old(contents), done, survivor, faults)
        invariant old0 != survivor && SameHash(hashes, old0, survivor) ==> SameMeaning(old(contents), contents, hashes)
        decreases todo
      {
        var r :| r in todo;
        todo := todo - {r};
        ProgressOne(old(contents), done, r, survivor, faults);
        SubstituteRow(r, survivor, faults, hashes);
        done := done + {r};
      }
      assert done == NamedBy(old(contents), {old0});
    }

    /** `substitute_chunk`: the number of old chunks whose rows were read, and whether all were. */
    method SubstituteChunk(survivor: Name, olds: seq<Name>, faults: Faults, ghost hashes: map<Name, Name>)
      returns (count: nat, ok: bool)
      modifies this
      ensures count <= |olds| && ok == (forall c :: c in olds ==> c !in faults.loads)
      ensures ok ==> count == |olds|
      ensures !ok ==> count < |olds| && olds[count] in faults.loads
      ensures forall k :: 0 <= k < count ==> olds[k] !in faults.loads
      ensures contents == StepsUnder(old(contents), olds, |olds|, survivor, faults)
      ensures faults == NO_FAULTS ==> contents == Steps(old(contents), olds, survivor)
      ensures survivor !in olds && (forall c :: c in olds ==> SameHash(hashes, c, survivor)) ==>
        SameMeaning(old(contents), contents, hashes)
    {
      count := 0;
      while count < |olds|
        invariant count <= |olds| && forall k :: 0 <= k < count ==> olds[k] !in faults.loads
        invariant contents == StepsUnder(old(contents), olds, count, survivor, faults)
        invariant survivor !in olds && (forall c :: c in olds ==> SameHash(hashes, c, survivor)) ==>
          SameMeaning(old(contents), contents, hashes)
      {
        if olds[count] in faults.loads {
          StepsStop(old(contents), olds, count, |olds|, survivor, faults);
          return count, false;
        }
        SubstituteOne(olds[count], survivor, faults, hashes);
        count := count + 1;
      }
      if faults == NO_FAULTS {
        StepsWithoutFaults(old(contents), olds, count, survivor);
        assert olds[..count] == olds;
      }
      ok := true;
    }

    /** The chunks of one answer not met before, in order; a group only when there are two or more. */
    static method NextGroup(ids: seq<Name>, already: set<Name>) returns (group: seq<Name>, met: set<Name>)
      ensures met == already + Elements(ids) && group == FirstSeen(ids, |ids|, already)
    {
      group, met := [], already;
      for i := 0 to |ids|
        invariant met == already + Elements(ids[..i]) && group == FirstSeen(ids, i, already)
      {
        assert ids[..i + 1] == ids[..i] + [ids[i]];
        AddElement(ids[..i], ids[i]);
        FirstSeenIsNew(ids, i, already);
        assert ids[i] in Elements(group) <==> ids[i] in group;
        if ids[i] !in met {
          group := group + [ids[i]];
          met := met + {ids[i]};
        }
      }
      assert ids[..|ids|] == ids;
    }

    /** The groups of duplicates of one chunk, one per deliberate copy, last copy first. */
    static method GroupsOf(copies: seq<Answer>, already: set<Name>)
      returns (groups: seq<seq<Name>>, met: set<Name>, ok: bool)
      ensures ok == AllLoaded(copies)
      ensures ok ==> met == already + Seen(copies, |copies|) && groups == GroupsFrom(copies, |copies|, already)
      ensures ok ==> Separate(groups) && forall k :: 0 <= k < |copies| ==>
        MergedIds(copies[k].ids, already + Seen(copies, k), groups)
    {
      groups, met := [], already;
      for i := 0 to |copies|
        invariant forall k :: 0 <= k < i ==> copies[k].Loaded?
        invariant met == already + Seen(copies, i) && groups == GroupsFrom(copies, i, already)
      {
        if copies[i].Failed? {
          return groups, met, false;
        }
        var group, met' := NextGroup(copies[i].ids, met);
        if |group| >= 2 {
          groups := [group] + groups;
        }
        met := met';
      }
      CopiesMerged(copies, already);
      ok := true;
    }

    /** The groups of one chunk, substituted in turn until an error. */
    method SubstituteGroups(groups: seq<seq<Name>>, faults: Faults, ghost hashes: map<Name, Name>) returns (ok: bool)
      requires Separate(groups) && AllAlike(groups, hashes)
      modifies this
      ensures SameMeaning(old(contents), contents, hashes)
      ensures ok <==> Unbroken(groups, faults)
      ensures contents == FoldedUnder(old(contents), groups, |groups|, faults)
    {
      for k := 0 to |groups|
        invariant SameMeaning(old(contents), contents, hashes) && Unbroken(groups[..k], faults)
        invariant contents == FoldedUnder(old(contents), groups, k, faults)
      {
        TailOfNoDup(groups[k]);
        UnbrokenNext(groups, k, faults);
        var _, done := SubstituteChunk(groups[k][0], groups[k][1..], faults, hashes);
        if !done {
          FoldedStops(old(contents), groups, k + 1, |groups|, faults);
          return false;
        }
      }
      assert groups[..|groups|] == groups;
      ok := true;
    }

    /** The groups of one chunk, found and substituted; `groups` are those of the chunks before it. */
    method DedupOne(copies: seq<Answer>, already: set<Name>, faults: Faults, ghost chunk: Name,
                    ghost hashes: map<Name, Name>, ghost begin: set<Content>, ghost groups: seq<seq<Name>>)
      returns (ok: bool, met: set<Name>, ghost groups': seq<seq<Name>>)
      requires Matches(copies, chunk, hashes)
      requires Separate(groups) && Within(groups, already) && AllAlike(groups, hashes) && Unbroken(groups, faults)
      requires contents == FoldedUnder(begin, groups, |groups|, faults)
      modifies this
      ensures SameMeaning(old(contents), contents, hashes)
      ensures groups' == if AllLoaded(copies) then groups + GroupsFrom(copies, |copies|, already) else groups
      ensures Separate(groups') && AllAlike(groups', hashes)
      ensures contents == FoldedUnder(begin, groups', |groups'|, faults)
      ensures ok <==> AllLoaded(copies) && Unbroken(groups', faults)
      ensures ok ==> met == already + Seen(copies, |copies|) && Within(groups', met)
    {
      groups' := groups;
      var found;
      found, met, ok := GroupsOf(copies, already);
      if ok {
        FoundGroups(copies, already, chunk, hashes);
        SeparateJoin(groups, found, already, met);
        AlikeJoin(groups, found, hashes);
        FoldedJoin(begin, groups, found, |found|, faults);
        UnbrokenJoin(groups, found, faults);
        groups' := groups + found;
        ok := SubstituteGroups(found, faults, hashes);
      }
    }

    /**
     `dedup_chunks_of_alias`: whatever the base answers and whichever steps fail, every content keeps
     the hashes of its chunks; when all goes well every chunk of an answer is replaced by the first one
     of that answer not met before, and nothing else changes.
     */
    method DedupChunks(chunks: seq<Name>, answers: seq<seq<Answer>>, faults: Faults, ghost hashes: map<Name, Name>)
      returns (ok: bool, ghost groups: seq<seq<Name>>)
      requires |answers| == |chunks| && forall i :: 0 <= i < |chunks| ==> Matches(answers[i], chunks[i], hashes)
      modifies this
      ensures SameMeaning(old(contents), contents, hashes)
      ensures Separate(groups) && AllAlike(groups, hashes)
      ensures contents == FoldedUnder(old(contents), groups, |groups|, faults)
      ensures faults == NO_FAULTS ==> contents == Image(old(contents), groups)
      ensures ok <==> AllAnswered(chunks, answers, |chunks|) && Unbroken(Expected(chunks, answers, |chunks|).0, faults)
      ensures ok ==> groups == Expected(chunks, answers, |chunks|).0 && MergedAll(chunks, answers, groups)
    {
      groups := [];
      var already: set<Name> := {};
      for i := 0 to |chunks|
        invariant SameMeaning(old(contents), contents, hashes)
        invariant Separate(groups) && AllAlike(groups, hashes)
        invariant contents == FoldedUnder(old(contents), groups, |groups|, faults)
        invariant WellUntil(chunks, answers, i, groups, already, faults)
      {
        UntilNext(chunks, answers, i, groups, already, faults);
        if chunks[i] in already {
          continue;
        }
        ghost var before := contents;
        var done, met;
        done, met, groups := DedupOne(answers[i], already, faults, chunks[i], hashes, old(contents), groups);
        MeaningChains(old(contents), before, contents, hashes);
        if !done {
          FoldedPlain(old(contents), groups, faults);
          return false, groups;
        }
        already := met;
      }
      FoldedPlain(old(contents), groups, faults);
      AllMerged(chunks, answers);
      ok := true;
    }
  }

  lemma AddElement(s: seq<Name>, x: Name)
    ensures Elements(s + [x]) == Elements(s) + {x}
    ensures NoDup(s) && x !in Elements(s) ==> NoDup(s + [x])
  {
  }

  datatype Answer = Failed | Loaded(ids: seq<Name>)

  ghost predicate AllLoaded(copies: seq<Answer>) {
    forall k :: 0 <= k < |copies| ==> copies[k].Loaded?
  }

  /** The chunks among the first `n` of a list that are new, each once, in order. */
  ghost function FirstSeen(ids: seq<Name>, n: nat, already: set<Name>): seq<Name>
    requires n <= |ids|
  {
    if n == 0 then []
    else
      var head := FirstSeen(ids, n - 1, already);
      if ids[n - 1] in already || ids[n - 1] in head then head else head + [ids[n - 1]]
  }

  /** The chunks in the first `n` answers. */
  ghost function Seen(copies: seq<Answer>, n: nat): set<Name>
    requires n <= |copies|
  {
    if n == 0 then {}
    else Seen(copies, n - 1) + if copies[n - 1].Loaded? then Elements(copies[n - 1].ids) else {}
  }

  /** One group per deliberate copy with two or more new chunks, the last copy first. */
  ghost function GroupsFrom(copies: seq<Answer>, n: nat, already: set<Name>): seq<seq<Name>>
    requires n <= |copies|
  {
    if n == 0 || copies[n - 1].Failed? then []
    else
      var g := FirstSeen(copies[n - 1].ids, |copies[n - 1].ids|, already + Seen(copies, n - 1));
      (if |g| >= 2 then [g] else []) + GroupsFrom(copies, n - 1, already)
  }

  /** The groups and the chunks met after the first `n` chunks of the alias, all answers loaded. */
  ghost function Expected(chunks: seq<Name>, answers: seq<seq<Answer>>, n: nat): (seq<seq<Name>>, set<Name>)
    requires n <= |chunks| == |answers|
  {
    if n == 0 then ([], {})
    else
      var (groups, already) := Expected(chunks, answers, n - 1);
      if chunks[n - 1] in already then (groups, already)
      else
        var copies := answers[n - 1];
        (groups + GroupsFrom(copies, |copies|, already), already + Seen(copies, |copies|))
  }

  /** Groups of two or more chunks, no chunk twice. */
  ghost predicate Separate(groups: seq<seq<Name>>) {
    && (forall k :: 0 <= k < |groups| ==> |groups[k]| >= 2 && NoDup(groups[k]))
    && (forall i, j :: 0 <= i < j < |groups| ==> Elements(groups[i]) !! Elements(groups[j]))
  }

  ghost predicate Within(groups: seq<seq<Name>>, s: set<Name>) {
    forall k :: 0 <= k < |groups| ==> Elements(groups[k]) <= s
  }

  /** The chunks of a group have one hash. */
  ghost predicate Alike(g: seq<Name>, hashes: map<Name, Name>) {
    |g| >= 2 && forall c :: c in g ==> SameHash(hashes, c, g[0])
  }

  ghost predicate AllAlike(groups: seq<seq<Name>>, hashes: map<Name, Name>) {
    forall k :: 0 <= k < |groups| ==> Alike(groups[k], hashes)
  }

  lemma AlikeJoin(a: seq<seq<Name>>, b: seq<seq<Name>>, hashes: map<Name, Name>)
    requires AllAlike(a, hashes) && AllAlike(b, hashes)
    ensures AllAlike(a + b, hashes)
  {
  }

  /** The answers hold chunks of the hash that was asked for. */
  ghost predicate Matches(copies: seq<Answer>, chunk: Name, hashes: map<Name, Name>) {
    forall a, c :: a in copies && a.Loaded? && c in a.ids ==> SameHash(hashes, c, chunk)
  }

  lemma {:induction false} FirstSeenIsNew(ids: seq<Name>, n: nat, already: set<Name>)
    requires n <= |ids|
    ensures Elements(FirstSeen(ids, n, already)) == Elements(ids[..n]) - already && NoDup(FirstSeen(ids, n, already))
  {
    if n == 0 {
    } else {
      FirstSeenIsNew(ids, n - 1, already);
      assert ids[..n] == ids[..n - 1] + [ids[n - 1]];
      AddElement(ids[..n - 1], ids[n - 1]);
      AddElement(FirstSeen(ids, n - 1, already), ids[n - 1]);
    }
  }

  /** The groups hold two or more new chunks each and share none. */
  lemma {:induction false} GroupsSeparate(copies: seq<Answer>, n: nat, already: set<Name>)
    requires n <= |copies| && forall k :: 0 <= k < n ==> copies[k].Loaded?
    ensures Separate(GroupsFrom(copies, n, already))
    ensures Within(GroupsFrom(copies, n, already), Seen(copies, n) - already)
  {
    if n == 0 {
    } else {
      var before := Seen(copies, n - 1);
      var ids := copies[n - 1].ids;
      var g := FirstSeen(ids, |ids|, already + before);
      assert ids[..|ids|] == ids;
      GroupsSeparate(copies, n - 1, already);
      FirstSeenIsNew(ids, |ids|, already + before);
      if |g| >= 2 {
        SeparateJoin([g], GroupsFrom(copies, n - 1, already), Elements(g), Seen(copies, n) - already);
      }
    }
  }

  lemma {:induction false} SeenMatches(copies: seq<Answer>, n: nat, c: Name, chunk: Name, hashes: map<Name, Name>)
    requires n <= |copies| && Matches(copies, chunk, hashes) && c in Seen(copies, n)
    ensures SameHash(hashes, c, chunk)
  {
    if c in Seen(copies, n - 1) {
      SeenMatches(copies, n - 1, c, chunk, hashes);
    } else {
      assert copies[n - 1] in copies;
    }
  }

  lemma GroupAlike(g: seq<Name>, copies: seq<Answer>, chunk: Name, hashes: map<Name, Name>)
    requires |g| >= 2 && Matches(copies, chunk, hashes) && Elements(g) <= Seen(copies, |copies|)
    ensures Alike(g, hashes)
  {
    forall c | c in g ensures SameHash(hashes, c, chunk) {
      assert c in Elements(g);
      SeenMatches(copies, |copies|, c, chunk, hashes);
    }
    assert g[0] in g;
  }

  /** What one chunk of the alias adds to the groups. */
  lemma FoundGroups(copies: seq<Answer>, already: set<Name>, chunk: Name, hashes: map<Name, Name>)
    requires AllLoaded(copies) && Matches(copies, chunk, hashes)
    ensures Separate(GroupsFrom(copies, |copies|, already))
    ensures Within(GroupsFrom(copies, |copies|, already), already + Seen(copies, |copies|) - already)
    ensures AllAlike(GroupsFrom(copies, |copies|, already), hashes)
  {
    GroupsSeparate(copies, |copies|, already);
    var found := GroupsFrom(copies, |copies|, already);
    forall k | 0 <= k < |found| ensures Alike(found[k], hashes) {
      GroupAlike(found[k], copies, chunk, hashes);
    }
  }

  lemma SeparateJoin(a: seq<seq<Name>>, b: seq<seq<Name>>, s: set<Name>, t: set<Name>)
    requires Separate(a) && Separate(b) && Within(a, s) && Within(b, t - s) && s <= t
    ensures Separate(a + b) && Within(a + b, t)
  {
  }

  /** Each group substituted in turn. */
  ghost function Folded(rows: set<Content>, groups: seq<seq<Name>>): set<Content>
    requires forall k :: 0 <= k < |groups| ==> |groups[k]| >= 2
  {
    if groups == [] then rows
    else
      var g := groups[|groups| - 1];
      Steps(Folded(rows, groups[..|groups| - 1]), g[1..], g[0])
  }

  /** The chunk that stands for `c` once the groups are substituted. */
  ghost function Standing(groups: seq<seq<Name>>, c: Name): Name
    requires forall k :: 0 <= k < |groups| ==> |groups[k]| >= 2
  {
    if groups == [] then c
    else if c in groups[|groups| - 1] then groups[|groups| - 1][0]
    else Standing(groups[..|groups| - 1], c)
  }

  ghost function Stand(r: Content, groups: seq<seq<Name>>): Content
    requires forall k :: 0 <= k < |groups| ==> |groups[k]| >= 2
  {
    r.(chunkId := Standing(groups, r.chunkId))
  }

  ghost function Image(rows: set<Content>, groups: seq<seq<Name>>): set<Content>
    requires forall k :: 0 <= k < |groups| ==> |groups[k]| >= 2
  {
    set r | r in rows :: Stand(r, groups)
  }

  /** A run over separate groups replaces every chunk by the first of its group, and nothing else. */
  lemma {:induction false} FoldedIsImage(rows: set<Content>, groups: seq<seq<Name>>)
    requires Separate(groups)
    ensures Folded(rows, groups) == Image(rows, groups)
  {
    if groups == [] {
    } else {
      var head, g := groups[..|groups| - 1], groups[|groups| - 1];
      TailOfNoDup(g);
      FoldedIsImage(rows, head);
      StepsRename(Folded(rows, head), g[1..], g[0]);
      forall r | r in rows ensures Rename(Stand(r, head), Elements(g[1..]), g[0]) == Stand(r, groups) {
        StandingElsewhere(head, r.chunkId, g);
        assert forall c :: c in g <==> c == g[0] || c in Elements(g[1..]);
      }
      ImageThenRename(rows, head, groups, Elements(g[1..]), g[0]);
    }
  }

  lemma ImageThenRename(rows: set<Content>, head: seq<seq<Name>>, groups: seq<seq<Name>>,
                        olds: set<Name>, survivor: Name)
    requires Separate(head) && Separate(groups)
    requires forall r :: r in rows ==> Rename(Stand(r, head), olds, survivor) == Stand(r, groups)
    ensures Renamed(Image(rows, head), olds, survivor) == Image(rows, groups)
  {
  }

  /** No chunk of another group stands for a chunk of the group. */
  lemma {:induction false} StandingElsewhere(groups: seq<seq<Name>>, c: Name, g: seq<Name>)
    requires forall k :: 0 <= k < |groups| ==> |groups[k]| >= 2 && Elements(groups[k]) !! Elements(g)
    ensures c in g ==> Standing(groups, c) == c
    ensures c !in g ==> Standing(groups, c) !in g
  {
    if groups == [] {
    } else {
      var last := groups[|groups| - 1];
      assert forall x :: x in last ==> x in Elements(last) && x !in Elements(g);
      assert forall x :: x in g ==> x in Elements(g);
      StandingElsewhere(groups[..|groups| - 1], c, g);
    }
  }

  /** After a run over separate groups no row names a replaced chunk. */
  lemma ReplacedAreGone(rows: set<Content>, groups: seq<seq<Name>>, r: Content, k: nat)
    requires Separate(groups) && k < |groups| && r in Folded(rows, groups)
    ensures r.chunkId !in groups[k][1..]
  {
    FoldedIsImage(rows, groups);
    var x :| x in rows && r == Stand(x, groups);
    StandsFirst(groups, x.chunkId, k);
  }

  lemma {:induction false} StandsFirst(groups: seq<seq<Name>>, c: Name, k: nat)
    requires Separate(groups) && k < |groups|
    ensures Standing(groups, c) !in groups[k][1..]
  {
    var n := |groups| - 1;
    var head, last := groups[..n], groups[n];
    if k < n {
      assert head[k] == groups[k];
      if c in last {
        assert last[0] in Elements(last);
        assert forall x :: x in groups[k] ==> x in Elements(groups[k]);
      } else {
        StandsFirst(head, c, k);
      }
    } else {
      TailOfNoDup(last);
      StandingElsewhere(head, c, last);
    }
  }

  // ---------------------------------------------------------------------------------------------
  // What is done when steps of the base fail

  ghost function Moved(rows: set<Content>, survivor: Name): set<Content> {
    set r | r in rows :: r.(chunkId := survivor)
  }

  /** The rows that can be saved under the new chunk. */
  ghost function Savable(rows: set<Content>, survivor: Name, faults: Faults): set<Content> {
    set r | r in rows && r.(chunkId := survivor) !in faults.saves
  }

  /** Of the rows `done`, those that can be saved are under the new chunk, and gone if they can be deleted. */
  ghost function Progress(rows: set<Content>, done: set<Content>, survivor: Name, faults: Faults): set<Content> {
    rows + Moved(Savable(done, survivor, faults), survivor) - (Savable(done, survivor, faults) - faults.deletes)
  }

  lemma ProgressOne(rows: set<Content>, done: set<Content>, r: Content, survivor: Name, faults: Faults)
    requires r !in done && forall x :: x in done ==> x.chunkId == r.chunkId
    ensures Progress(rows, done + {r}, survivor, faults) ==
            if r.(chunkId := survivor) in faults.saves then Progress(rows, done, survivor, faults)
            else Progress(rows, done, survivor, faults) + {r.(chunkId := survivor)} -
                 if r in faults.deletes then {} else {r}
  {
    if r.(chunkId := survivor) in faults.saves {
      assert Savable(done + {r}, survivor, faults) == Savable(done, survivor, faults);
    } else {
      assert Savable(done + {r}, survivor, faults) == Savable(done, survivor, faults) + {r};
      assert Moved(Savable(done, survivor, faults) + {r}, survivor) ==
             Moved(Savable(done, survivor, faults), survivor) + {r.(chunkId := survivor)};
    }
  }

  /** One old chunk, its rows loaded. */
  ghost function StepUnder(rows: set<Content>, old0: Name, survivor: Name, faults: Faults): set<Content> {
    Progress(rows, NamedBy(rows, {old0}), survivor, faults)
  }

  lemma StepWithoutFaults(rows: set<Content>, old0: Name, survivor: Name)
    ensures StepUnder(rows, old0, survivor, NO_FAULTS) == Step(rows, old0, survivor)
  {
    assert Savable(NamedBy(rows, {old0}), survivor, NO_FAULTS) == NamedBy(rows, {old0});
  }

  /** The load of one of the first `n` chunks fails. */
  ghost predicate Broken(olds: seq<Name>, n: nat, faults: Faults)
    requires n <= |olds|
  {
    exists k :: 0 <= k < n && olds[k] in faults.loads
  }

  /** The first `n` old chunks in turn, up to the first whose load fails. */
  ghost function StepsUnder(rows: set<Content>, olds: seq<Name>, n: nat, survivor: Name, faults: Faults): set<Content>
    requires n <= |olds|
  {
    if n == 0 then rows
    else
      var before := StepsUnder(rows, olds, n - 1, survivor, faults);
      if Broken(olds, n, faults) then before else StepUnder(before, olds[n - 1], survivor, faults)
  }

  lemma {:induction false} StepsStop(rows: set<Content>, olds: seq<Name>, i: nat, n: nat, survivor: Name,
                                     faults: Faults)
    requires i < n <= |olds| && olds[i] in faults.loads
    ensures StepsUnder(rows, olds, n, survivor, faults) == StepsUnder(rows, olds, i, survivor, faults)
  {
    assert Broken(olds, n, faults);
    if i + 1 < n {
      StepsStop(rows, olds, i, n - 1, survivor, faults);
    }
  }

  lemma {:induction false} StepsWithoutFaults(rows: set<Content>, olds: seq<Name>, n: nat, survivor: Name)
    requires n <= |olds|
    ensures StepsUnder(rows, olds, n, survivor, NO_FAULTS) == Steps(rows, olds[..n], survivor)
  {
    if n == 0 {
    } else {
      StepsWithoutFaults(rows, olds, n - 1, survivor);
      assert olds[..n][..n - 1] == olds[..n - 1];
      StepWithoutFaults(Steps(rows, olds[..n - 1], survivor), olds[n - 1], survivor);
    }
  }

  /** No load of a chunk to replace fails. */
  ghost predicate Unbroken(groups: seq<seq<Name>>, faults: Faults) {
    forall k :: 0 <= k < |groups| ==> Loadable(groups[k], faults)
  }

  ghost predicate Loadable(g: seq<Name>, faults: Faults) {
    forall c :: g != [] && c in g[1..] ==> c !in faults.loads
  }

  lemma UnbrokenNext(groups: seq<seq<Name>>, k: nat, faults: Faults)
    requires k < |groups|
    ensures Unbroken(groups[..k + 1], faults) <==> Unbroken(groups[..k], faults) && Loadable(groups[k], faults)
    ensures Unbroken(groups, faults) ==> Loadable(groups[k], faults)
  {
    assert groups[..k + 1] == groups[..k] + [groups[k]];
    assert Unbroken(groups[..k + 1], faults) ==> Loadable(groups[..k + 1][k], faults);
    assert forall i :: 0 <= i < k ==> groups[..k + 1][i] == groups[..k][i];
  }

  /** The first `n` groups in turn, up to the first that meets a load that fails. */
  ghost function FoldedUnder(rows: set<Content>, groups: seq<seq<Name>>, n: nat, faults: Faults): set<Content>
    requires n <= |groups| && forall k :: 0 <= k < |groups| ==> |groups[k]| >= 2
  {
    if n == 0 then rows
    else
      var before, g := FoldedUnder(rows, groups, n - 1, faults), groups[n - 1];
      if Unbroken(groups[..n - 1], faults) then StepsUnder(before, g[1..], |g[1..]|, g[0], faults) else before
  }

  lemma {:induction false} FoldedStops(rows: set<Content>, groups: seq<seq<Name>>, i: nat, n: nat, faults: Faults)
    requires i <= n <= |groups| && (forall k :: 0 <= k < |groups| ==> |groups[k]| >= 2)
    requires !Unbroken(groups[..i], faults)
    ensures FoldedUnder(rows, groups, n, faults) == FoldedUnder(rows, groups, i, faults)
  {
    if i < n {
      FoldedStops(rows, groups, i, n - 1, faults);
      assert groups[..n - 1][..i] == groups[..i];
      if Unbroken(groups[..n - 1], faults) {
        PrefixUnbroken(groups[..n - 1], i, faults);
      }
    }
  }

  lemma PrefixUnbroken(groups: seq<seq<Name>>, i: nat, faults: Faults)
    requires i <= |groups| && Unbroken(groups, faults)
    ensures Unbroken(groups[..i], faults)
  {
  }

  lemma {:induction false} FoldedPrefix(rows: set<Content>, a: seq<seq<Name>>, b: seq<seq<Name>>, n: nat,
                                        faults: Faults)
    requires n <= |a| && Separate(a) && Separate(a + b)
    ensures FoldedUnder(rows, a + b, n, faults) == FoldedUnder(rows, a, n, faults)
  {
    if n == 0 {
    } else {
      FoldedPrefix(rows, a, b, n - 1, faults);
      assert (a + b)[..n - 1] == a[..n - 1];
    }
  }

  lemma {:induction false} FoldedJoin(rows: set<Content>, a: seq<seq<Name>>, b: seq<seq<Name>>, n: nat, faults: Faults)
    requires n <= |b| && Separate(a) && Separate(b) && Separate(a + b) && Unbroken(a, faults)
    ensures FoldedUnder(rows, a + b, |a| + n, faults) == FoldedUnder(FoldedUnder(rows, a, |a|, faults), b, n, faults)
  {
    if n == 0 {
      FoldedPrefix(rows, a, b, |a|, faults);
    } else {
      FoldedJoin(rows, a, b, n - 1, faults);
      assert (a + b)[..|a| + n - 1] == a + b[..n - 1];
      UnbrokenJoin(a, b[..n - 1], faults);
    }
  }

  lemma UnbrokenJoin(a: seq<seq<Name>>, b: seq<seq<Name>>, faults: Faults)
    ensures Unbroken(a + b, faults) <==> Unbroken(a, faults) && Unbroken(b, faults)
  {
    assert forall k :: 0 <= k < |a| ==> (a + b)[k] == a[k];
    assert forall k :: 0 <= k < |b| ==> (a + b)[|a| + k] == b[k];
  }

  /** Without failures the groups are folded in turn, so that every chunk gives way to the first of its group. */
  lemma FoldedPlain(rows: set<Content>, groups: seq<seq<Name>>, faults: Faults)
    requires Separate(groups)
    ensures faults == NO_FAULTS ==> FoldedUnder(rows, groups, |groups|, faults) == Image(rows, groups)
  {
    if faults == NO_FAULTS {
      FoldedWithoutFaults(rows, groups, |groups|);
      assert groups[..|groups|] == groups;
      FoldedIsImage(rows, groups);
    }
  }

  lemma {:induction false} FoldedWithoutFaults(rows: set<Content>, groups: seq<seq<Name>>, n: nat)
    requires n <= |groups| && Separate(groups)
    ensures FoldedUnder(rows, groups, n, NO_FAULTS) == Folded(rows, groups[..n])
  {
    if n == 0 {
    } else {
      var g := groups[n - 1];
      FoldedWithoutFaults(rows, groups, n - 1);
      assert groups[..n][..n - 1] == groups[..n - 1];
      StepsWithoutFaults(Folded(rows, groups[..n - 1]), g[1..], |g[1..]|, g[0]);
      assert g[1..][..|g[1..]|] == g[1..];
    }
  }

  // ---------------------------------------------------------------------------------------------
  // Which chunks are merged

  /** The answers for a chunk are loaded, unless the chunk was met before. */
  ghost predicate Answered(chunks: seq<Name>, answers: seq<seq<Answer>>, i: nat)
    requires i < |chunks| == |answers|
  {
    chunks[i] in Expected(chunks, answers, i).1 || AllLoaded(answers[i])
  }

  ghost predicate AllAnswered(chunks: seq<Name>, answers: seq<seq<Answer>>, n: nat)
    requires n <= |chunks| == |answers|
  {
    forall i :: 0 <= i < n ==> Answered(chunks, answers, i)
  }

  /** The first `n` chunks are treated, with `groups` found, and nothing failed so far. */
  ghost predicate WellUntil(chunks: seq<Name>, answers: seq<seq<Answer>>, n: nat, groups: seq<seq<Name>>,
                            already: set<Name>, faults: Faults)
    requires n <= |chunks| == |answers|
  {
    && (groups, already) == Expected(chunks, answers, n) && AllAnswered(chunks, answers, n)
    && Within(groups, already) && Unbroken(groups, faults)
  }

  /** The first chunk of an answer that is not among `met`. */
  ghost predicate FirstNew(ids: seq<Name>, m: nat, met: set<Name>) {
    m < |ids| && ids[m] !in met && forall j :: 0 <= j < m ==> ids[j] in met
  }

  /** Every chunk of the answer not met before is replaced by the first of them. */
  ghost predicate MergedIds(ids: seq<Name>, met: set<Name>, groups: seq<seq<Name>>)
    requires forall x :: 0 <= x < |groups| ==> |groups[x]| >= 2
  {
    forall m: nat, c :: FirstNew(ids, m, met) && c in ids && c !in met ==> Standing(groups, c) == ids[m]
  }

  /** So are the chunks of the `k`-th answer for the `i`-th chunk, unless that one was met before. */
  ghost predicate Merged(chunks: seq<Name>, answers: seq<seq<Answer>>, groups: seq<seq<Name>>, i: nat, k: nat)
    requires i < |chunks| == |answers| && k < |answers[i]|
    requires forall x :: 0 <= x < |groups| ==> |groups[x]| >= 2
  {
    var met := Expected(chunks, answers, i).1;
    chunks[i] !in met && answers[i][k].Loaded? ==>
      MergedIds(answers[i][k].ids, met + Seen(answers[i], k), groups)
  }

  /** Every chunk of every answer is merged; a chunk in no answer stands for itself. */
  ghost predicate MergedAll(chunks: seq<Name>, answers: seq<seq<Answer>>, groups: seq<seq<Name>>)
    requires |chunks| == |answers| && forall x :: 0 <= x < |groups| ==> |groups[x]| >= 2
  {
    && (forall i, k :: 0 <= i < |chunks| && 0 <= k < |answers[i]| ==> Merged(chunks, answers, groups, i, k))
    && (forall c :: c !in Expected(chunks, answers, |chunks|).1 ==> Standing(groups, c) == c)
  }

  lemma {:induction false} FirstSeenHead(ids: seq<Name>, n: nat, m: nat, met: set<Name>)
    requires m < n <= |ids| && FirstNew(ids, m, met)
    ensures FirstSeen(ids, n, met) != [] && FirstSeen(ids, n, met)[0] == ids[m]
  {
    if m == n - 1 {
      FirstSeenIsNew(ids, m, met);
      assert Elements(ids[..m]) - met == {};
      NoElements(FirstSeen(ids, m, met));
    } else {
      FirstSeenHead(ids, n - 1, m, met);
    }
  }

  lemma NoElements(s: seq<Name>)
    requires Elements(s) == {}
    ensures s == []
  {
    EmptyOrMember(s);
    assert forall x :: x in s ==> x in Elements(s);
  }

  /** The new chunks of the `k`-th answer. */
  ghost function NewIn(copies: seq<Answer>, k: nat, already: set<Name>): seq<Name>
    requires k < |copies| && copies[k].Loaded?
  {
    FirstSeen(copies[k].ids, |copies[k].ids|, already + Seen(copies, k))
  }

  lemma NewInMembers(copies: seq<Answer>, k: nat, already: set<Name>, c: Name)
    requires k < |copies| && copies[k].Loaded?
    ensures c in NewIn(copies, k, already) <==> c in copies[k].ids && c !in already && c !in Seen(copies, k)
    ensures NoDup(NewIn(copies, k, already))
  {
    var ids := copies[k].ids;
    FirstSeenIsNew(ids, |ids|, already + Seen(copies, k));
    assert ids[..|ids|] == ids;
    assert c in NewIn(copies, k, already) <==> c in Elements(NewIn(copies, k, already));
  }

  /** Two or more new chunks in one answer make a group. */
  lemma {:induction false} GroupPresent(copies: seq<Answer>, n: nat, already: set<Name>, k: nat)
    requires k < n <= |copies| && AllLoaded(copies) && |NewIn(copies, k, already)| >= 2
    ensures NewIn(copies, k, already) in GroupsFrom(copies, n, already)
  {
    if k == n - 1 {
    } else {
      GroupPresent(copies, n - 1, already, k);
    }
  }

  /** Nothing else does. */
  lemma {:induction false} GroupOrigin(copies: seq<Answer>, n: nat, already: set<Name>, g: seq<Name>) returns (k: nat)
    requires n <= |copies| && g in GroupsFrom(copies, n, already)
    ensures k < n && copies[k].Loaded? && g == NewIn(copies, k, already) && |g| >= 2
  {
    if g in GroupsFrom(copies, n - 1, already) {
      k := GroupOrigin(copies, n - 1, already, g);
    } else {
      k := n - 1;
    }
  }

  lemma {:induction false} SeenGrows(copies: seq<Answer>, k: nat, n: nat)
    requires k < n <= |copies|
    ensures copies[k].Loaded? ==> Elements(copies[k].ids) <= Seen(copies, n)
  {
    if k < n - 1 {
      SeenGrows(copies, k, n - 1);
    }
  }

  lemma {:induction false} ExpectedExtends(chunks: seq<Name>, answers: seq<seq<Answer>>, i: nat, n: nat)
    requires i <= n <= |chunks| == |answers|
    ensures Expected(chunks, answers, i).0 <= Expected(chunks, answers, n).0
    ensures Expected(chunks, answers, i).1 <= Expected(chunks, answers, n).1
  {
    if i < n {
      ExpectedExtends(chunks, answers, i, n - 1);
    }
  }

  lemma BrokenStays(groups: seq<seq<Name>>, all: seq<seq<Name>>, faults: Faults)
    requires !Unbroken(groups, faults) && groups <= all
    ensures !Unbroken(all, faults)
  {
    var k :| 0 <= k < |groups| && !Loadable(groups[k], faults);
    assert !Loadable(all[k], faults);
  }

  /** What becomes of the run at the `i`-th chunk. */
  lemma UntilNext(chunks: seq<Name>, answers: seq<seq<Answer>>, i: nat, groups: seq<seq<Name>>,
                  already: set<Name>, faults: Faults)
    requires i < |chunks| == |answers| && WellUntil(chunks, answers, i, groups, already, faults)
    ensures chunks[i] in already ==> WellUntil(chunks, answers, i + 1, groups, already, faults)
    ensures chunks[i] !in already ==>
      var copies := answers[i];
      var groups', met := groups + GroupsFrom(copies, |copies|, already), already + Seen(copies, |copies|);
      if AllLoaded(copies) && Unbroken(groups', faults) then
        Within(groups', met) ==> WellUntil(chunks, answers, i + 1, groups', met, faults)
      else
        !AllAnswered(chunks, answers, |chunks|) || !Unbroken(Expected(chunks, answers, |chunks|).0, faults)
  {
    if chunks[i] !in already && !(AllLoaded(answers[i]) && Unbroken(Expected(chunks, answers, i + 1).0, faults)) {
      FailedAt(chunks, answers, i, faults);
    }
  }

  /** A chunk whose answers or groups fail makes the whole run fail. */
  lemma FailedAt(chunks: seq<Name>, answers: seq<seq<Answer>>, i: nat, faults: Faults)
    requires i < |chunks| == |answers| && chunks[i] !in Expected(chunks, answers, i).1
    requires !AllLoaded(answers[i]) || !Unbroken(Expected(chunks, answers, i + 1).0, faults)
    ensures !AllAnswered(chunks, answers, |chunks|) || !Unbroken(Expected(chunks, answers, |chunks|).0, faults)
  {
    if AllLoaded(answers[i]) {
      ExpectedExtends(chunks, answers, i + 1, |chunks|);
      BrokenStays(Expected(chunks, answers, i + 1).0, Expected(chunks, answers, |chunks|).0, faults);
    } else {
      assert !Answered(chunks, answers, i);
    }
  }

  /** A group found for the first `n` chunks comes from one answer for one of them. */
  lemma {:induction false} ExpectedOrigin(chunks: seq<Name>, answers: seq<seq<Answer>>, n: nat, g: seq<Name>)
    returns (i: nat, k: nat)
    requires n <= |chunks| == |answers| && g in Expected(chunks, answers, n).0
    ensures i < n && chunks[i] !in Expected(chunks, answers, i).1
    ensures k < |answers[i]| && answers[i][k].Loaded?
    ensures g == NewIn(answers[i], k, Expected(chunks, answers, i).1) && |g| >= 2
  {
    var before := Expected(chunks, answers, n - 1);
    if g in before.0 {
      i, k := ExpectedOrigin(chunks, answers, n - 1, g);
    } else {
      i := n - 1;
      k := GroupOrigin(answers[i], |answers[i]|, before.1, g);
    }
  }

  /** Where a chunk is new determines its answer. */
  lemma NewOnce(chunks: seq<Name>, answers: seq<seq<Answer>>, i: nat, k: nat, i': nat, k': nat, c: Name)
    requires i < |chunks| == |answers| && chunks[i] !in Expected(chunks, answers, i).1
    requires k < |answers[i]| && answers[i][k].Loaded?
    requires c in NewIn(answers[i], k, Expected(chunks, answers, i).1)
    requires i' < |chunks| && chunks[i'] !in Expected(chunks, answers, i').1
    requires k' < |answers[i']| && answers[i'][k'].Loaded?
    requires c in NewIn(answers[i'], k', Expected(chunks, answers, i').1)
    ensures i == i' && k == k'
  {
    NewInMembers(answers[i], k, Expected(chunks, answers, i).1, c);
    NewInMembers(answers[i'], k', Expected(chunks, answers, i').1, c);
    if i < i' {
      MetAfter(chunks, answers, i, k, i', c);
    } else if i' < i {
      MetAfter(chunks, answers, i', k', i, c);
    } else {
      NewInOne(answers[i], Expected(chunks, answers, i).1, k, k', c);
    }
  }

  lemma NewInOne(copies: seq<Answer>, already: set<Name>, k: nat, k': nat, c: Name)
    requires k < |copies| && copies[k].Loaded? && c in NewIn(copies, k, already)
    requires k' < |copies| && copies[k'].Loaded? && c in NewIn(copies, k', already)
    ensures k == k'
  {
    NewInMembers(copies, k, already, c);
    NewInMembers(copies, k', already, c);
    if k < k' {
      assert c in Elements(copies[k].ids);
      SeenGrows(copies, k, k');
    } else if k' < k {
      assert c in Elements(copies[k'].ids);
      SeenGrows(copies, k', k);
    }
  }

  lemma CopyStands(copies: seq<Answer>, already: set<Name>, k: nat, c: Name)
    requires AllLoaded(copies) && Separate(GroupsFrom(copies, |copies|, already))
    requires k < |copies| && c in NewIn(copies, k, already)
    ensures Standing(GroupsFrom(copies, |copies|, already), c) == NewIn(copies, k, already)[0]
  {
    var groups, g := GroupsFrom(copies, |copies|, already), NewIn(copies, k, already);
    if |g| >= 2 {
      GroupPresent(copies, |copies|, already, k);
      var x :| 0 <= x < |groups| && groups[x] == g;
      StandingIn(groups, x, c);
    } else {
      forall x | 0 <= x < |groups| ensures c !in groups[x] {
        var k' := GroupOrigin(copies, |copies|, already, groups[x]);
        if c in groups[x] {
          NewInOne(copies, already, k, k', c);
          assert false;
        }
      }
      StandingNone(groups, c);
    }
  }

  /** The groups of one chunk merge the new chunks of every answer into the first of them. */
  lemma CopiesMerged(copies: seq<Answer>, already: set<Name>)
    requires AllLoaded(copies)
    ensures Separate(GroupsFrom(copies, |copies|, already))
    ensures forall k :: 0 <= k < |copies| ==>
      MergedIds(copies[k].ids, already + Seen(copies, k), GroupsFrom(copies, |copies|, already))
  {
    GroupsSeparate(copies, |copies|, already);
    var groups := GroupsFrom(copies, |copies|, already);
    forall k, m: nat, c |
      0 <= k < |copies| && FirstNew(copies[k].ids, m, already + Seen(copies, k)) &&
      c in copies[k].ids && c !in already + Seen(copies, k)
      ensures Standing(groups, c) == copies[k].ids[m]
    {
      NewInMembers(copies, k, already, c);
      FirstSeenHead(copies[k].ids, |copies[k].ids|, m, already + Seen(copies, k));
      CopyStands(copies, already, k, c);
    }
  }

  lemma MetAfter(chunks: seq<Name>, answers: seq<seq<Answer>>, i: nat, k: nat, n: nat, c: Name)
    requires i < n <= |chunks| == |answers| && chunks[i] !in Expected(chunks, answers, i).1
    requires k < |answers[i]| && answers[i][k].Loaded? && c in answers[i][k].ids
    ensures c in Expected(chunks, answers, n).1
  {
    SeenGrows(answers[i], k, |answers[i]|);
    assert c in Elements(answers[i][k].ids);
    ExpectedExtends(chunks, answers, i + 1, n);
  }

  lemma {:induction false} StandingIn(groups: seq<seq<Name>>, x: nat, c: Name)
    requires Separate(groups) && x < |groups| && c in groups[x]
    ensures Standing(groups, c) == groups[x][0]
  {
    var n := |groups| - 1;
    if x < n {
      assert c in Elements(groups[x]) && c !in Elements(groups[n]);
      assert groups[..n][x] == groups[x];
      StandingIn(groups[..n], x, c);
    }
  }

  lemma {:induction false} StandingNone(groups: seq<seq<Name>>, c: Name)
    requires Separate(groups) && forall x :: 0 <= x < |groups| ==> c !in groups[x]
    ensures Standing(groups, c) == c
  {
    if groups == [] {
    } else {
      StandingNone(groups[..|groups| - 1], c);
    }
  }

  lemma GroupAdded(chunks: seq<Name>, answers: seq<seq<Answer>>, i: nat, k: nat)
    requires i < |chunks| == |answers| && chunks[i] !in Expected(chunks, answers, i).1 && AllLoaded(answers[i])
    requires k < |answers[i]| && |NewIn(answers[i], k, Expected(chunks, answers, i).1)| >= 2
    ensures NewIn(answers[i], k, Expected(chunks, answers, i).1) in Expected(chunks, answers, i + 1).0
  {
    var before := Expected(chunks, answers, i);
    GroupPresent(answers[i], |answers[i]|, before.1, k);
    assert Expected(chunks, answers, i + 1).0 == before.0 + GroupsFrom(answers[i], |answers[i]|, before.1);
  }

  lemma GroupIsExpected(chunks: seq<Name>, answers: seq<seq<Answer>>, i: nat, k: nat)
    requires |chunks| == |answers| && AllAnswered(chunks, answers, |chunks|)
    requires i < |chunks| && chunks[i] !in Expected(chunks, answers, i).1
    requires k < |answers[i]| && answers[i][k].Loaded? && |NewIn(answers[i], k, Expected(chunks, answers, i).1)| >= 2
    ensures NewIn(answers[i], k, Expected(chunks, answers, i).1) in Expected(chunks, answers, |chunks|).0
  {
    assert Answered(chunks, answers, i);
    GroupAdded(chunks, answers, i, k);
    ExpectedExtends(chunks, answers, i + 1, |chunks|);
    InPrefix(Expected(chunks, answers, i + 1).0, Expected(chunks, answers, |chunks|).0,
             NewIn(answers[i], k, Expected(chunks, answers, i).1));
  }

  lemma InPrefix<T>(s: seq<T>, t: seq<T>, x: T)
    requires s <= t && x in s
    ensures x in t
  {
    var i :| 0 <= i < |s| && s[i] == x;
    assert t[i] == x;
  }

  lemma AloneIsFree(chunks: seq<Name>, answers: seq<seq<Answer>>, i: nat, k: nat, c: Name, g: seq<Name>)
    requires |chunks| == |answers| && i < |chunks| && chunks[i] !in Expected(chunks, answers, i).1
    requires k < |answers[i]| && answers[i][k].Loaded? && c in NewIn(answers[i], k, Expected(chunks, answers, i).1)
    requires |NewIn(answers[i], k, Expected(chunks, answers, i).1)| < 2
    requires g in Expected(chunks, answers, |chunks|).0
    ensures c !in g
  {
    var i', k' := ExpectedOrigin(chunks, answers, |chunks|, g);
    if c in g {
      NewOnce(chunks, answers, i, k, i', k', c);
      assert false;
    }
  }

  /** The new chunks of an answer give way to the first of them. */
  lemma NewStands(chunks: seq<Name>, answers: seq<seq<Answer>>, i: nat, k: nat, c: Name)
    requires |chunks| == |answers| && AllAnswered(chunks, answers, |chunks|)
    requires Separate(Expected(chunks, answers, |chunks|).0)
    requires i < |chunks| && chunks[i] !in Expected(chunks, answers, i).1
    requires k < |answers[i]| && answers[i][k].Loaded?
    requires c in NewIn(answers[i], k, Expected(chunks, answers, i).1)
    ensures Standing(Expected(chunks, answers, |chunks|).0, c) ==
            NewIn(answers[i], k, Expected(chunks, answers, i).1)[0]
  {
    var groups := Expected(chunks, answers, |chunks|).0;
    var g := NewIn(answers[i], k, Expected(chunks, answers, i).1);
    if |g| >= 2 {
      GroupIsExpected(chunks, answers, i, k);
      var x :| 0 <= x < |groups| && groups[x] == g;
      StandingIn(groups, x, c);
    } else {
      forall x | 0 <= x < |groups| ensures c !in groups[x] {
        AloneIsFree(chunks, answers, i, k, c, groups[x]);
      }
      StandingNone(groups, c);
    }
  }

  lemma AllMerged(chunks: seq<Name>, answers: seq<seq<Answer>>)
    requires |chunks| == |answers| && AllAnswered(chunks, answers, |chunks|)
    requires var (groups, met) := Expected(chunks, answers, |chunks|); Separate(groups) && Within(groups, met)
    ensures MergedAll(chunks, answers, Expected(chunks, answers, |chunks|).0)
  {
    var (groups, met) := Expected(chunks, answers, |chunks|);
    forall i, k | 0 <= i < |chunks| && 0 <= k < |answers[i]| ensures Merged(chunks, answers, groups, i, k) {
      AnswerMerged(chunks, answers, i, k);
    }
    forall c | c !in met ensures Standing(groups, c) == c {
      assert forall x :: 0 <= x < |groups| && c in groups[x] ==> c in Elements(groups[x]);
      StandingNone(groups, c);
    }
  }

  lemma AnswerMerged(chunks: seq<Name>, answers: seq<seq<Answer>>, i: nat, k: nat)
    requires |chunks| == |answers| && AllAnswered(chunks, answers, |chunks|)
    requires Separate(Expected(chunks, answers, |chunks|).0)
    requires i < |chunks| && k < |answers[i]|
    ensures Merged(chunks, answers, Expected(chunks, answers, |chunks|).0, i, k)
  {
    var groups, already := Expected(chunks, answers, |chunks|).0, Expected(chunks, answers, i).1;
    if chunks[i] !in already && answers[i][k].Loaded? {
      var ids, met := answers[i][k].ids, already + Seen(answers[i], k);
      forall m: nat, c | FirstNew(ids, m, met) && c in ids && c !in met ensures Standing(groups, c) == ids[m] {
        NewInMembers(answers[i], k, already, c);
        FirstSeenHead(ids, |ids|, m, met);
        NewStands(chunks, answers, i, k, c);
      }
    }
  }
}
