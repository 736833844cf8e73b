/** Laws of compatible merge patches. */
module MergePatchLaws {
  import opened Wrappers
  import opened CelText
  import opened JsonValues
  import opened MergePatch

  lemma {:induction false} SomePath(patch: Fields) returns (p: Path)
    requires patch != map[]
    ensures Writes(patch, p)
    decreases Obj(patch)
  {
    var k :| k in patch;
    if IsBranch(patch[k]) {
      var rest := SomePath(patch[k].fields);
      p := [k] + rest;
      assert p[1..] == rest;
    } else {
      p := [k];
    }
  }

  /** A patch does not conflict with itself: its written paths overlap only when they are equal. */
  lemma {:induction false} NoSelfConflict(patch: Fields, p: Path, q: Path)
    requires Meet(patch, patch, p, q)
    ensures p == q
    decreases |p|
  {
    assert p[0] == q[0];
    if IsBranch(patch[p[0]]) {
      NoSelfConflict(patch[p[0]].fields, p[1..], q[1..]);
      assert p == [p[0]] + p[1..] && q == [q[0]] + q[1..];
    }
  }

  lemma ClashSymmetric(a: Fields, b: Fields)
    ensures Clash(a, b) <==> Clash(b, a)
  {
    if Clash(a, b) {
      var p, q :| Meet(a, b, p, q);
      assert Meet(b, a, q, p);
    }
    if Clash(b, a) {
      var p, q :| Meet(b, a, p, q);
      assert Meet(a, b, q, p);
    }
  }

  // ---------- reading ----------

  /** The path leaves the patch's objects before any of its leaves. */
  predicate Untouched(patch: Fields, p: Path)
    decreases |p|
  {
    p != [] && (p[0] in patch ==> IsBranch(patch[p[0]]) && Untouched(patch[p[0]].fields, p[1..]))
  }

  lemma {:induction false} SomeOverlap(patch: Fields, p: Path) returns (q: Path)
    requires !Untouched(patch, p) && (p == [] ==> patch != map[])
    ensures Writes(patch, q) && Overlap(p, q)
    decreases |p|
  {
    if p == [] {
      q := SomePath(patch);
    } else if IsBranch(patch[p[0]]) {
      var rest := SomeOverlap(patch[p[0]].fields, p[1..]);
      q := [p[0]] + rest;
      assert q[1..] == rest && p == [p[0]] + p[1..];
    } else {
      q := [p[0]];
    }
  }

  lemma {:induction false} UntouchedUnchanged(target: Fields, patch: Fields, p: Path)
    requires Untouched(patch, p)
    ensures Read(MergeFields(target, patch), p) == Read(target, p)
    decreases |p|
  {
    if p[0] in patch {
      UntouchedUnchanged(FieldsOf(Get(target, p[0])), patch[p[0]].fields, p[1..]);
      ReadEmpty(p[1..]);
    }
  }

  /** A path that overlaps no written path reads the same before and after. */
  lemma UnwrittenUnchanged(target: Fields, patch: Fields, p: Path)
    requires p != [] && forall q :: Writes(patch, q) ==> !Overlap(p, q)
    ensures Read(MergeFields(target, patch), p) == Read(target, p)
  {
    if !Untouched(patch, p) {
      var q := SomeOverlap(patch, p);
      assert false;
    }
    UntouchedUnchanged(target, patch, p);
  }

  lemma ReadEmpty(p: Path)
    requires p != []
    ensures Read(map[], p) == None
  {
  }

  /** The patch's value at a written path. */
  function Leaf(patch: Fields, p: Path): Json
    requires Writes(patch, p)
    decreases |p|
  {
    if IsBranch(patch[p[0]]) then Leaf(patch[p[0]].fields, p[1..]) else patch[p[0]]
  }

  /** What a written path reads afterwards: nothing for null, the target's object for an empty object,
      else the value. */
  function Written(target: Fields, patch: Fields, p: Path): Option<Json>
    requires Writes(patch, p)
  {
    match Leaf(patch, p)
    case Null => None
    case Obj(_) => Some(Obj(FieldsOf(Read(target, p))))
    case v => Some(v)
  }

  lemma {:induction false} LeafNotBranch(patch: Fields, p: Path)
    requires Writes(patch, p)
    ensures !IsBranch(Leaf(patch, p))
    decreases |p|
  {
    if IsBranch(patch[p[0]]) { LeafNotBranch(patch[p[0]].fields, p[1..]); }
  }

  lemma {:induction false} WrittenRead(target: Fields, patch: Fields, p: Path)
    requires Writes(patch, p)
    ensures Read(MergeFields(target, patch), p) == Written(target, patch, p)
    // an object at the end of a written path is the empty one
    ensures Leaf(patch, p).Obj? ==> Leaf(patch, p) == Obj(map[])
    decreases |p|
  {
    LeafNotBranch(patch, p);
    var k := p[0];
    if IsBranch(patch[k]) {
      WrittenRead(FieldsOf(Get(target, k)), patch[k].fields, p[1..]);
      ReadEmpty(p[1..]);
    } else if patch[k].Obj? {
      assert MergeFields(FieldsOf(Get(target, k)), map[]) == FieldsOf(Get(target, k));
    }
  }

  /** Applying the same patch again changes nothing. */
  lemma {:induction false} MergeIdempotent(target: Fields, patch: Fields)
    ensures MergeFields(MergeFields(target, patch), patch) == MergeFields(target, patch)
    decreases Obj(patch)
  {
    var once := MergeFields(target, patch);
    var twice := MergeFields(once, patch);
    forall k | k in once
      ensures twice[k] == once[k]
    {
      assert k in patch ==> once[k] == Merge(Get(target, k), patch[k]) && twice[k] == Merge(Get(once, k), patch[k]);
      if k in patch && patch[k].Obj? {
        MergeIdempotent(FieldsOf(Get(target, k)), patch[k].fields);
        assert FieldsOf(Get(once, k)) == MergeFields(FieldsOf(Get(target, k)), patch[k].fields);
      }
    }
    assert twice.Keys == once.Keys;
  }

  // ---------- order ----------

  /** Under a key both patches have, both hold non-empty objects, which do not clash either. */
  lemma SharedKey(a: Fields, b: Fields, k: Text)
    requires !Clash(a, b) && k in a && k in b
    ensures IsBranch(a[k]) && IsBranch(b[k]) && !Clash(a[k].fields, b[k].fields)
  {
    var p := PathUnder(a, k);
    var q := PathUnder(b, k);
    assert p == [k] + p[1..] && q == [k] + q[1..];
    if !IsBranch(a[k]) { assert p == [k] && Meet(a, b, p, q); }
    if !IsBranch(b[k]) { assert q == [k] && Meet(a, b, p, q); }
    if Clash(a[k].fields, b[k].fields) {
      var x, y :| Meet(a[k].fields, b[k].fields, x, y);
      assert ([k] + x)[1..] == x && ([k] + y)[1..] == y;
      assert Meet(a, b, [k] + x, [k] + y);
    }
  }

  lemma PathUnder(patch: Fields, k: Text) returns (p: Path)
    requires k in patch
    ensures Writes(patch, p) && p[0] == k
  {
    if IsBranch(patch[k]) {
      var rest := SomePath(patch[k].fields);
      p := [k] + rest;
      assert p[1..] == rest;
    } else {
      p := [k];
    }
  }

  /** Two patches that do not clash may be applied in either order. */
  lemma {:induction false} MergeCommutes(target: Fields, a: Fields, b: Fields)
    requires !Clash(a, b)
    ensures MergeFields(MergeFields(target, a), b) == MergeFields(MergeFields(target, b), a)
    decreases Obj(a), 1
  {
    var ab, ba := MergeFields(MergeFields(target, a), b), MergeFields(MergeFields(target, b), a);
    forall k
      ensures Get(ab, k) == Get(ba, k)
    {
      CommutesAt(target, a, b, k);
    }
    SameMembers(ab, ba);
  }

  lemma SameMembers(x: Fields, y: Fields)
    requires forall k :: Get(x, k) == Get(y, k)
    ensures x == y
  {
    assert forall k <- x :: Get(x, k) == Get(y, k);
    assert forall k <- y :: Get(x, k) == Get(y, k);
  }

  lemma {:induction false} CommutesAt(target: Fields, a: Fields, b: Fields, k: Text)
    requires !Clash(a, b)
    ensures Get(MergeFields(MergeFields(target, a), b), k) == Get(MergeFields(MergeFields(target, b), a), k)
    decreases Obj(a), 0
  {
    if k in a && k in b {
      SharedKey(a, b, k);
      MergeCommutes(FieldsOf(Get(target, k)), a[k].fields, b[k].fields);
    }
  }

  ghost predicate Free(ps: seq<NamedPatch>, patch: Fields) {
    forall i: nat :: i < |ps| ==> !Clash(ps[i].patch, patch)
  }

  /** A patch that clashes with none of the others may come first. */
  lemma {:induction false} ApplyFirst(body: Fields, ps: seq<NamedPatch>, last: NamedPatch, more: seq<NamedPatch>)
    requires Free(ps, last.patch)
    ensures Applied(body, ps + [last] + more) == Applied(body, [last] + ps + more)
    decreases |ps|
  {
    if ps == [] {
      assert [last] + ps + more == ps + [last] + more;
    } else {
      assert Free(ps[1..], last.patch) by {
        forall i: nat | i < |ps[1..]|
          ensures !Clash(ps[1..][i].patch, last.patch)
        {
          assert ps[1..][i] == ps[i + 1];
        }
      }
      var after := MergeFields(body, ps[0].patch);
      ApplyFirst(after, ps[1..], last, more);
      assert (ps + [last] + more)[1..] == ps[1..] + [last] + more;
      assert ([last] + ps[1..] + more)[1..] == ps[1..] + more;
      var x := [last] + ps + more;
      assert x[0] == last && x[1..][0] == ps[0] && x[1..][1..] == ps[1..] + more;
      assert !Clash(ps[0].patch, last.patch);
      MergeCommutes(body, ps[0].patch, last.patch);
    }
  }

  /** Without the patch at position i. */
  function Without(ps: seq<NamedPatch>, i: nat): (rest: seq<NamedPatch>)
    requires i < |ps|
    ensures |rest| == |ps| - 1
  {
    ps[..i] + ps[i + 1..]
  }

  lemma CompatibleAt(ps: seq<NamedPatch>, i: nat, j: nat)
    requires Compatible(ps) && i < |ps| && j < |ps| && i != j
    ensures !Clash(ps[i].patch, ps[j].patch)
  {
    if j < i { ClashSymmetric(ps[i].patch, ps[j].patch); }
  }

  lemma WithoutCompatible(ps: seq<NamedPatch>, i: nat)
    requires Compatible(ps) && i < |ps|
    ensures Compatible(Without(ps, i)) && Free(Without(ps, i), ps[i].patch)
  {
    var rest := Without(ps, i);
    forall x: nat, y: nat | x < y < |rest|
      ensures !Clash(rest[x].patch, rest[y].patch)
    {
      CompatibleAt(ps, if x < i then x else x + 1, if y < i then y else y + 1);
    }
    forall x: nat | x < |rest|
      ensures !Clash(rest[x].patch, ps[i].patch)
    {
      CompatibleAt(ps, if x < i then x else x + 1, i);
    }
  }

  /** Compatible patches give the same result in every order, and every order is compatible. */
  lemma {:induction false} OrderDoesNotMatter(body: Fields, ps: seq<NamedPatch>, qs: seq<NamedPatch>)
    requires Compatible(ps) && multiset(ps) == multiset(qs)
    ensures Compatible(qs) && Applied(body, ps) == Applied(body, qs)
    decreases |ps|
  {
    if qs == [] {
      assert |multiset(ps)| == |multiset(qs)|;
    } else {
      var i := Moved(ps, qs);
      var rest := Without(ps, i);
      WithoutCompatible(ps, i);
      FreePrefix(ps, i);
      ApplyFirst(body, ps[..i], qs[0], ps[i + 1..]);
      assert [qs[0]] + ps[..i] + ps[i + 1..] == [qs[0]] + rest;
      assert ([qs[0]] + rest)[1..] == rest;
      OrderDoesNotMatter(MergeFields(body, qs[0].patch), rest, qs[1..]);
      FreeOrder(rest, qs[1..], qs[0].patch);
      ConsCompatible(qs);
    }
  }

  lemma Moved(ps: seq<NamedPatch>, qs: seq<NamedPatch>) returns (i: nat)
    requires qs != [] && multiset(ps) == multiset(qs)
    ensures i < |ps| && ps[i] == qs[0] && ps == ps[..i] + [qs[0]] + ps[i + 1..]
    ensures multiset(Without(ps, i)) == multiset(qs[1..])
  {
    i := Position(ps, qs[0]);
    TakeOut(ps[..i], qs[0], ps[i + 1..]);
    TakeOut([], qs[0], qs[1..]);
    assert ps == ps[..i] + [qs[0]] + ps[i + 1..];
    assert qs == [] + [qs[0]] + qs[1..];
    assert [] + qs[1..] == qs[1..];
    Cancel(multiset(Without(ps, i)), multiset(qs[1..]), qs[0]);
  }

  lemma Position<T>(xs: seq<T>, x: T) returns (i: nat)
    requires x in multiset(xs)
    ensures i < |xs| && xs[i] == x
  {
    i :| i < |xs| && xs[i] == x;
  }

  lemma TakeOut<T>(xs: seq<T>, x: T, ys: seq<T>)
    ensures multiset(xs + [x] + ys) == multiset(xs + ys) + multiset{x}
  {
  }

  lemma Cancel<T>(a: multiset<T>, b: multiset<T>, x: T)
    requires a + multiset{x} == b + multiset{x}
    ensures a == b
  {
    assert a == (a + multiset{x}) - multiset{x};
  }

  lemma FreePrefix(ps: seq<NamedPatch>, i: nat)
    requires Compatible(ps) && i < |ps|
    ensures Free(ps[..i], ps[i].patch)
  {
  }

  lemma FreeOrder(ps: seq<NamedPatch>, qs: seq<NamedPatch>, patch: Fields)
    requires Free(ps, patch) && multiset(ps) == multiset(qs)
    ensures Free(qs, patch)
  {
    forall i: nat | i < |qs|
      ensures !Clash(qs[i].patch, patch)
    {
      assert qs[i] in multiset(ps);
      var j: nat :| j < |ps| && ps[j] == qs[i];
    }
  }

  lemma ConsCompatible(qs: seq<NamedPatch>)
    requires qs != [] && Compatible(qs[1..]) && Free(qs[1..], qs[0].patch)
    ensures Compatible(qs)
  {
    forall i: nat, j: nat | i < j < |qs|
      ensures !Clash(qs[i].patch, qs[j].patch)
    {
      assert qs[j] == qs[1..][j - 1];
      if i == 0 { ClashSymmetric(qs[0].patch, qs[j].patch); } else { assert qs[i] == qs[1..][i - 1]; }
    }
  }

  /** Every leaf an accepted patch writes survives all later patches. */
  lemma {:induction false} WrittenSurvives(body: Fields, ps: seq<NamedPatch>, i: nat, p: Path)
    requires Compatible(ps) && i < |ps| && Writes(ps[i].patch, p)
    ensures Read(Applied(body, ps), p) == Written(Applied(body, ps[..i]), ps[i].patch, p)
    decreases |ps|
  {
    if i == 0 {
      WithoutCompatible(ps, 0);
      assert Without(ps, 0) == ps[1..];
      WrittenRead(body, ps[0].patch, p);
      LaterUnchanged(MergeFields(body, ps[0].patch), ps[1..], ps[0].patch, p);
    } else {
      WrittenSurvives(MergeFields(body, ps[0].patch), ps[1..], i - 1, p);
      assert ps[1..][..i - 1] == ps[..i][1..];
    }
  }

  lemma WritesApart(a: Fields, b: Fields, p: Path)
    requires !Clash(a, b) && Writes(b, p)
    ensures forall q :: Writes(a, q) ==> !Overlap(p, q)
  {
    forall q | Writes(a, q)
      ensures !Overlap(p, q)
    {
      assert !Meet(a, b, q, p);
    }
  }

  lemma {:induction false} LaterUnchanged(body: Fields, ps: seq<NamedPatch>, patch: Fields, p: Path)
    requires Writes(patch, p) && Free(ps, patch)
    ensures Read(Applied(body, ps), p) == Read(body, p)
    decreases |ps|
  {
    if ps != [] {
      WritesApart(ps[0].patch, patch, p);
      UnwrittenUnchanged(body, ps[0].patch, p);
      assert Free(ps[1..], patch) by {
        assert forall i: nat :: i < |ps[1..]| ==> ps[1..][i] == ps[i + 1];
      }
      LaterUnchanged(MergeFields(body, ps[0].patch), ps[1..], patch, p);
    }
  }
}
