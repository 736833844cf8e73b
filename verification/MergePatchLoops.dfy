/** Applying named patches in order with the conflict check, as the program's loops do it. */
module MergePatchLoops {
  import opened Wrappers
  import opened CelText
  import opened JsonValues
  import opened MergePatch
  import opened MergePatchLaws

  method CloneJson(value: Json) returns (copy: Json)
    ensures copy == value
    decreases value
  {
    match value
    case Arr(es) =>
      var elements := [];
      for i := 0 to |es|
        invariant elements == es[..i]
      {
        var e := CloneJson(es[i]);
        elements := elements + [e];
      }
      copy := Arr(elements);
    case Obj(fields) =>
      var result: Fields := map[];
      var rest := fields.Keys;
      while rest != {}
        invariant rest <= fields.Keys && result.Keys == fields.Keys - rest
        invariant forall k <- result :: result[k] == fields[k]
      {
        var k :| k in rest;
        var entry := CloneJson(fields[k]);
        result := result[k := entry];
        rest := rest - {k};
      }
      assert result == fields;
      copy := Obj(result);
    case _ => copy := value;
  }

  /** mergeObject, taking the members of the patch in any order. */
  method MergeObject(target: Fields, patch: Fields) returns (result: Fields)
    ensures result == MergeFields(target, patch)
    decreases Obj(patch)
  {
    result := target;
    var rest := patch.Keys;
    while rest != {}
      invariant rest <= patch.Keys
      invariant forall k :: k in result <==> if k in rest then k in target else Kept(target, patch, k)
      invariant forall k <- result ::
                  result[k] == if k in rest || k !in patch then target[k] else Merge(Get(target, k), patch[k])
    {
      var k :| k in rest;
      rest := rest - {k};
      match patch[k]
      case Null => result := result - {k};
      case Obj(fields) =>
        var merged := MergeObject(FieldsOf(Get(result, k)), fields);
        result := result[k := Obj(merged)];
      case _ =>
        var copy := CloneJson(patch[k]);
        result := result[k := copy];
    }
    assert result == MergeFields(target, patch);
  }

  method PathsOverlap(left: Path, right: Path) returns (overlap: bool)
    ensures overlap == Overlap(left, right)
  {
    var sharedLength := if |left| < |right| then |left| else |right|;
    for index := 0 to sharedLength
      invariant left[..index] == right[..index]
    {
      if left[index] != right[index] {
        assert !(left <= right) && !(right <= left);
        return false;
      }
    }
    return true;
  }

  ghost predicate NoRepeats(paths: seq<Path>) {
    forall i: nat, j: nat :: i < j < |paths| ==> paths[i] != paths[j]
  }

  /** What the part of a patch under `key` writes, below `path`. */
  ghost predicate Under(patch: Fields, key: Text, prefix: Path, q: Path) {
    prefix + [key] <= q && Writes(patch, q[|prefix|..])
  }

  lemma UnderSomeKey(patch: Fields, prefix: Path, q: Path)
    ensures prefix <= q && Writes(patch, q[|prefix|..]) <==> exists key <- patch.Keys :: Under(patch, key, prefix, q)
  {
    if prefix <= q && Writes(patch, q[|prefix|..]) {
      var key := q[|prefix|..][0];
      assert prefix + [key] <= q;
      assert key in patch.Keys && Under(patch, key, prefix, q);
    }
  }

  lemma NoRepeatsConcat(xs: seq<Path>, ys: seq<Path>)
    requires NoRepeats(xs) && NoRepeats(ys) && forall q <- xs :: q !in ys
    ensures NoRepeats(xs + ys)
  {
    forall i: nat, j: nat | i < j < |xs + ys|
      ensures (xs + ys)[i] != (xs + ys)[j]
    {
      if i < |xs| { assert (xs + ys)[i] in xs; }
      if j >= |xs| { assert (xs + ys)[j] in ys; }
    }
  }

  /** Exactly the written paths, each once, in whatever order the members come. */
  method CollectWrittenPaths(patch: Fields, prefix: Path) returns (paths: seq<Path>)
    ensures forall q :: q in paths <==> prefix <= q && Writes(patch, q[|prefix|..])
    ensures NoRepeats(paths)
    decreases Obj(patch)
  {
    paths := [];
    var rest := patch.Keys;
    while rest != {}
      invariant rest <= patch.Keys
      invariant forall q :: q in paths <==> exists key <- patch.Keys - rest :: Under(patch, key, prefix, q)
      invariant NoRepeats(paths)
    {
      var key :| key in rest;
      rest := rest - {key};
      var path := prefix + [key];
      var more: seq<Path>;
      if IsBranch(patch[key]) {
        more := CollectWrittenPaths(patch[key].fields, path);
      } else {
        more := [path];
      }
      forall q
        ensures q in more <==> Under(patch, key, prefix, q)
      {
        if path <= q { assert q[|prefix|..][1..] == q[|path|..]; }
        if !IsBranch(patch[key]) && Under(patch, key, prefix, q) { assert q == path; }
      }
      forall q | q in paths
        ensures q !in more
      {
        var other :| other in patch.Keys - rest - {key} && Under(patch, other, prefix, q);
        assert q[|prefix|] == other;
      }
      NoRepeatsConcat(paths, more);
      paths := paths + more;
    }
    forall q
      ensures q in paths <==> prefix <= q && Writes(patch, q[|prefix|..])
    {
      UnderSomeKey(patch, prefix, q);
      assert patch.Keys - rest == patch.Keys;
    }
  }

  /** The first owned path that overlaps, if any. */
  method FindConflict(owned: seq<OwnedPath>, path: Path) returns (conflict: Option<OwnedPath>)
    ensures conflict.None? ==> forall o <- owned :: !Overlap(o.path, path)
    ensures conflict.Some? ==> conflict.value in owned && Overlap(conflict.value.path, path)
  {
    for i := 0 to |owned|
      invariant forall o <- owned[..i] :: !Overlap(o.path, path)
    {
      var overlap := PathsOverlap(owned[i].path, path);
      if overlap { return Some(owned[i]); }
    }
    return None;
  }

  /** An owned path was written by one of the first n patches. */
  ghost predicate WroteAt(ps: seq<NamedPatch>, i: nat, o: OwnedPath) {
    i < |ps| && ps[i].option == o.option && Writes(ps[i].patch, o.path)
  }

  ghost predicate Wrote(ps: seq<NamedPatch>, n: nat, o: OwnedPath) {
    exists i: nat :: i < n && WroteAt(ps, i, o)
  }

  ghost predicate Owns(owned: seq<OwnedPath>, p: Path) {
    exists o <- owned :: o.path == p
  }

  /** The owned paths are those the first n patches write. */
  ghost predicate Tally(ps: seq<NamedPatch>, n: nat, owned: seq<OwnedPath>) {
    && n <= |ps|
    && (forall o <- owned :: Wrote(ps, n, o))
    && (forall i: nat, p :: i < n && Writes(ps[i].patch, p) ==> Owns(owned, p))
  }

  /** Two patches, the first before the second, both write at or around the path. */
  ghost predicate Explains(ps: seq<NamedPatch>, c: Conflict) {
    exists i: nat, j: nat, q :: i < j < |ps| && ps[i].option == c.owner && ps[j].option == c.option
                                && Meet(ps[i].patch, ps[j].patch, q, c.path)
  }

  lemma ExplainedIsIncompatible(ps: seq<NamedPatch>, c: Conflict)
    requires Explains(ps, c)
    ensures !Compatible(ps)
  {
    var i: nat, j: nat, q :| i < j < |ps| && Meet(ps[i].patch, ps[j].patch, q, c.path);
    assert Clash(ps[i].patch, ps[j].patch);
  }

  /** While the paths of patch n are claimed: `mine` are those claimed so far. */
  ghost predicate Claiming(ps: seq<NamedPatch>, n: nat, before: seq<OwnedPath>, mine: seq<Path>, owned: seq<OwnedPath>)
  {
    && before <= owned
    && (forall o <- owned :: Wrote(ps, n, o) || (WroteAt(ps, n, o) && o.path in mine))
    && (forall p <- mine :: Owns(owned, p))
    && (forall o <- before, p <- mine :: !Overlap(o.path, p))
  }

  lemma ClaimOne(ps: seq<NamedPatch>, n: nat, before: seq<OwnedPath>, mine: seq<Path>, owned: seq<OwnedPath>,
                 path: Path)
    requires Claiming(ps, n, before, mine, owned) && n < |ps| && Writes(ps[n].patch, path)
    requires forall o <- owned :: !Overlap(o.path, path)
    ensures Claiming(ps, n, before, mine + [path], owned + [OwnedPath(ps[n].option, path)])
  {
    var more := owned + [OwnedPath(ps[n].option, path)];
    assert more[|owned|].path == path;
    forall p | p in mine + [path]
      ensures Owns(more, p)
    {
      if p in mine {
        var o :| o in owned && o.path == p;
        assert o in more;
      }
    }
  }

  lemma ClaimedAll(ps: seq<NamedPatch>, n: nat, before: seq<OwnedPath>, mine: seq<Path>, owned: seq<OwnedPath>)
    requires Tally(ps, n, before) && n < |ps| && Claiming(ps, n, before, mine, owned)
    requires forall q :: q in mine <==> Writes(ps[n].patch, q)
    ensures Tally(ps, n + 1, owned)
    ensures forall i: nat :: i < n ==> !Clash(ps[i].patch, ps[n].patch)
  {
    forall o | o in owned
      ensures Wrote(ps, n + 1, o)
    {
      if !WroteAt(ps, n, o) {
        var i: nat :| i < n && WroteAt(ps, i, o);
      }
    }
    forall i: nat, p | i < n + 1 && Writes(ps[i].patch, p)
      ensures Owns(owned, p)
    {
      if i < n {
        assert Owns(before, p);
        var o :| o in before && o.path == p;
        assert o in owned;
      }
    }
    forall i: nat | i < n
      ensures !Clash(ps[i].patch, ps[n].patch)
    {
      forall p, q
        ensures !Meet(ps[i].patch, ps[n].patch, p, q)
      {
        if Writes(ps[i].patch, p) && Writes(ps[n].patch, q) {
          assert Owns(before, p);
          var o :| o in before && o.path == p;
          assert !Overlap(o.path, q);
        }
      }
    }
  }

  /** The conflict check for one patch: its paths join the owned ones, or one overlaps an owned path. */
  method ClaimPaths(before: seq<OwnedPath>, ps: seq<NamedPatch>, n: nat, paths: seq<Path>)
    returns (r: Result<seq<OwnedPath>, Conflict>)
    requires Tally(ps, n, before) && n < |ps|
    requires (forall q :: q in paths <==> Writes(ps[n].patch, q)) && NoRepeats(paths)
    ensures r.Ok? ==> Tally(ps, n + 1, r.value) && forall i: nat :: i < n ==> !Clash(ps[i].patch, ps[n].patch)
    ensures r.Err? ==> Explains(ps, r.error)
  {
    var owned := before;
    for i := 0 to |paths|
      invariant Claiming(ps, n, before, paths[..i], owned)
    {
      var path := paths[i];
      assert path in paths;
      var conflict := FindConflict(owned, path);
      if conflict.Some? {
        ConflictFound(ps, n, before, paths, i, owned, conflict.value);
        return Err(Conflict(path, conflict.value.option, ps[n].option));
      }
      ClaimOne(ps, n, before, paths[..i], owned, path);
      assert paths[..i] + [path] == paths[..i + 1];
      owned := owned + [OwnedPath(ps[n].option, path)];
    }
    assert paths[..|paths|] == paths;
    ClaimedAll(ps, n, before, paths, owned);
    return Ok(owned);
  }

  /** The owner of an overlapping path is an earlier patch, never the patch itself. */
  lemma ConflictFound(ps: seq<NamedPatch>, n: nat, before: seq<OwnedPath>, paths: seq<Path>, i: nat,
                      owned: seq<OwnedPath>, o: OwnedPath)
    requires n < |ps| && i < |paths| && Claiming(ps, n, before, paths[..i], owned)
    requires (forall q :: q in paths <==> Writes(ps[n].patch, q)) && NoRepeats(paths)
    requires o in owned && Overlap(o.path, paths[i])
    ensures Explains(ps, Conflict(paths[i], o.option, ps[n].option))
  {
    assert paths[i] in paths;
    if !Wrote(ps, n, o) {
      NoSelfConflict(ps[n].patch, o.path, paths[i]);
      assert false;
    }
    var k: nat :| k < n && WroteAt(ps, k, o);
    assert Meet(ps[k].patch, ps[n].patch, o.path, paths[i]);
  }

  lemma CompatiblePrefix(ps: seq<NamedPatch>, n: nat)
    requires n < |ps| && Compatible(ps[..n]) && forall i: nat :: i < n ==> !Clash(ps[i].patch, ps[n].patch)
    ensures Compatible(ps[..n + 1])
  {
    var first, more := ps[..n], ps[..n + 1];
    forall i: nat, j: nat | i < j < |more|
      ensures !Clash(more[i].patch, more[j].patch)
    {
      if j < n { assert first[i] == more[i] && first[j] == more[j]; }
    }
  }

  /** Succeeds exactly when no two patches clash, and then merges them one after the other; a conflict
      names two patches that do clash. */
  method ApplyOrderedPatches(body: Fields, patches: seq<NamedPatch>) returns (r: Result<Fields, Conflict>)
    ensures r.Ok? <==> Compatible(patches)
    ensures r.Ok? ==> r.value == Applied(body, patches)
    ensures r.Err? ==> Explains(patches, r.error)
  {
    var ownedPaths: seq<OwnedPath> := [];
    var copy := CloneJson(Obj(body));
    var result := copy.fields;
    var n := 0;
    assert patches[0..] == patches;
    while n < |patches|
      invariant n <= |patches| && Tally(patches, n, ownedPaths) && Compatible(patches[..n])
      invariant Applied(result, patches[n..]) == Applied(body, patches)
    {
      var paths := CollectWrittenPaths(patches[n].patch, []);
      assert forall q: Path :: [] <= q && q[0..] == q;
      var claim := ClaimPaths(ownedPaths, patches, n, paths);
      if claim.Err? {
        ExplainedIsIncompatible(patches, claim.error);
        return Err(claim.error);
      }
      CompatiblePrefix(patches, n);
      ownedPaths := claim.value;
      result := MergeObject(result, patches[n].patch);
      assert patches[n..][1..] == patches[n + 1..];
      n := n + 1;
    }
    assert patches[..n] == patches;
    return Ok(result);
  }

  /** Neither the merged object nor whether there is a conflict depends on the order of the patches. */
  lemma OrderIndependent(body: Fields, ps: seq<NamedPatch>, qs: seq<NamedPatch>)
    requires multiset(ps) == multiset(qs)
    ensures Compatible(ps) <==> Compatible(qs)
    ensures Compatible(ps) ==> Applied(body, ps) == Applied(body, qs)
  {
    if Compatible(ps) {
      OrderDoesNotMatter(body, ps, qs);
    } else if Compatible(qs) {
      OrderDoesNotMatter(body, qs, ps);
    }
  }
}
