/** The order of members that built-in and personal configuration own together. */
module OwnedOrder {

  function Ids<T(==)>(s: seq<T>): set<T> { set x | x in s }

  /** The first occurrence of each value. */
  function Unique<T(==)>(s: seq<T>): seq<T> {
    if s == [] then []
    else Unique(s[..|s| - 1]) + if s[|s| - 1] in s[..|s| - 1] then [] else [s[|s| - 1]]
  }

  function Keep<T(==)>(s: seq<T>, members: set<T>): seq<T> {
    if s == [] then [] else (if s[0] in members then [s[0]] else []) + Keep(s[1..], members)
  }

  function Without<T(==)>(s: seq<T>, gone: set<T>): seq<T> {
    if s == [] then [] else (if s[0] in gone then [] else [s[0]]) + Without(s[1..], gone)
  }

  ghost predicate Distinct<T>(s: seq<T>) {
    forall i, j :: 0 <= i < j < |s| ==> s[i] != s[j]
  }

  /** Unordered built-ins, then the members in the requested order, then unordered personal ones. */
  function Ordered<T(==)>(builtin: seq<T>, personal: seq<T>, requested: seq<T>): seq<T> {
    var own := Without(Unique(personal), Ids(builtin));
    var ordered := Keep(Unique(requested), Ids(builtin) + Ids(personal));
    Without(Unique(builtin), Ids(ordered)) + ordered + Without(own, Ids(ordered))
  }

  method UniqueInOrder<T(==)>(values: seq<T>) returns (result: seq<T>)
    ensures result == Unique(values)
  {
    var seen: set<T> := {};
    result := [];
    for i := 0 to |values|
      invariant result == Unique(values[..i])
      invariant seen == Ids(values[..i])
    {
      assert values[..i + 1][..i] == values[..i];
      if values[i] !in seen {
        seen := seen + {values[i]};
        result := result + [values[i]];
      }
    }
    assert values[..|values|] == values;
  }

  method ResolveOwnedOrder<T(==)>(builtinIds: seq<T>, personalIds: seq<T>, requestedOrder: seq<T>)
    returns (order: seq<T>)
    ensures order == Ordered(builtinIds, personalIds, requestedOrder)
  {
    var builtin := UniqueInOrder(builtinIds);
    UniqueIds(builtinIds);
    var builtinSet := Ids(builtin);
    var unique := UniqueInOrder(personalIds);
    UniqueIds(personalIds);
    var personal := Without(unique, builtinSet);
    WithoutIds(unique, builtinSet);
    var members := builtinSet + Ids(personal);
    assert members == Ids(builtinIds) + Ids(personalIds);
    var requested := UniqueInOrder(requestedOrder);
    var ordered := Keep(requested, members);
    return Without(builtin, Ids(ordered)) + ordered + Without(personal, Ids(ordered));
  }

  // ---------- members ----------

  lemma IdsConcat<T>(s: seq<T>, t: seq<T>)
    ensures Ids(s + t) == Ids(s) + Ids(t)
  {
  }

  lemma {:induction false} UniqueIds<T>(s: seq<T>)
    ensures Ids(Unique(s)) == Ids(s)
  {
    if s != [] {
      var front, last := s[..|s| - 1], s[|s| - 1];
      UniqueIds(front);
      assert s == front + [last];
      IdsConcat(front, [last]);
      IdsConcat(Unique(front), if last in front then [] else [last]);
      assert last in front <==> last in Ids(front);
    }
  }

  lemma {:induction false} KeepIds<T>(s: seq<T>, members: set<T>)
    ensures Ids(Keep(s, members)) == Ids(s) * members
  {
    if s != [] {
      KeepIds(s[1..], members);
      assert s == [s[0]] + s[1..];
      IdsConcat([s[0]], s[1..]);
      IdsConcat(if s[0] in members then [s[0]] else [], Keep(s[1..], members));
    }
  }

  lemma {:induction false} WithoutIds<T>(s: seq<T>, gone: set<T>)
    ensures Ids(Without(s, gone)) == Ids(s) - gone
  {
    if s != [] {
      WithoutIds(s[1..], gone);
      assert s == [s[0]] + s[1..];
      IdsConcat([s[0]], s[1..]);
      IdsConcat(if s[0] in gone then [] else [s[0]], Without(s[1..], gone));
    }
  }

  // ---------- keeping and leaving out ----------

  /** Leaving out is keeping the rest. */
  lemma {:induction false} WithoutIsKeep<T>(s: seq<T>, gone: set<T>, members: set<T>)
    requires forall x <- s :: x in members <==> x !in gone
    ensures Without(s, gone) == Keep(s, members)
  {
    if s != [] { WithoutIsKeep(s[1..], gone, members); }
  }

  lemma {:induction false} KeepSame<T>(s: seq<T>, a: set<T>, b: set<T>)
    requires forall x <- s :: x in a <==> x in b
    ensures Keep(s, a) == Keep(s, b)
  {
    if s != [] { KeepSame(s[1..], a, b); }
  }

  lemma {:induction false} KeepAll<T>(s: seq<T>, members: set<T>)
    requires forall x <- s :: x in members
    ensures Keep(s, members) == s
  {
    if s != [] { KeepAll(s[1..], members); }
  }

  lemma {:induction false} KeepNone<T>(s: seq<T>, members: set<T>)
    requires forall x <- s :: x !in members
    ensures Keep(s, members) == []
  {
    if s != [] { KeepNone(s[1..], members); }
  }

  lemma {:induction false} KeepConcat<T>(s: seq<T>, t: seq<T>, members: set<T>)
    ensures Keep(s + t, members) == Keep(s, members) + Keep(t, members)
  {
    if s == [] {
      assert s + t == t;
    } else {
      var first := if s[0] in members then [s[0]] else [];
      assert (s + t)[0] == s[0] && (s + t)[1..] == s[1..] + t;
      KeepConcat(s[1..], t, members);
      assert first + (Keep(s[1..], members) + Keep(t, members)) == (first + Keep(s[1..], members)) + Keep(t, members);
    }
  }

  lemma {:induction false} KeepKeep<T>(s: seq<T>, a: set<T>, b: set<T>)
    ensures Keep(Keep(s, a), b) == Keep(s, a * b)
  {
    if s != [] {
      KeepKeep(s[1..], a, b);
      KeepConcat(if s[0] in a then [s[0]] else [], Keep(s[1..], a), b);
    }
  }

  lemma {:induction false} UniqueKeep<T>(s: seq<T>, members: set<T>)
    ensures Unique(Keep(s, members)) == Keep(Unique(s), members)
  {
    if s != [] {
      var front, last := s[..|s| - 1], s[|s| - 1];
      UniqueKeep(front, members);
      assert s == front + [last];
      KeepConcat(front, [last], members);
      KeepConcat(Unique(front), if last in front then [] else [last], members);
      assert Keep([last], members) == if last in members then [last] else [];
      if last in members {
        UniqueAppend(front, last, members);
      } else {
        assert Keep(s, members) == Keep(front, members);
      }
    }
  }

  lemma UniqueAppend<T>(front: seq<T>, last: T, members: set<T>)
    requires last in members
    ensures Unique(Keep(front, members) + [last]) == Unique(Keep(front, members)) + if last in front then [] else [last]
  {
    var kept := Keep(front, members);
    assert (kept + [last])[..|kept|] == kept;
    KeepIds(front, members);
    assert last in kept <==> last in Ids(kept);
    assert last in front <==> last in Ids(front);
  }

  // ---------- sequences without repetition ----------

  lemma {:induction false} UniqueDistinct<T>(s: seq<T>)
    ensures Distinct(Unique(s))
  {
    if s != [] {
      var front := s[..|s| - 1];
      UniqueDistinct(front);
      UniqueIds(front);
      var last := s[|s| - 1];
      assert last in front <==> last in Ids(front);
      DistinctConcat(Unique(front), if last in front then [] else [last]);
    }
  }

  lemma {:induction false} UniqueOfDistinct<T>(s: seq<T>)
    requires Distinct(s)
    ensures Unique(s) == s
  {
    if s != [] {
      UniqueOfDistinct(s[..|s| - 1]);
      assert s == s[..|s| - 1] + [s[|s| - 1]];
    }
  }

  lemma {:induction false} KeepDistinct<T>(s: seq<T>, members: set<T>)
    requires Distinct(s)
    ensures Distinct(Keep(s, members))
  {
    if s != [] {
      KeepDistinct(s[1..], members);
      KeepIds(s[1..], members);
      assert s[0] !in Ids(s[1..]);
      DistinctConcat(if s[0] in members then [s[0]] else [], Keep(s[1..], members));
    }
  }

  lemma DistinctConcat<T>(s: seq<T>, t: seq<T>)
    requires Distinct(s) && Distinct(t) && Ids(s) !! Ids(t)
    ensures Distinct(s + t)
  {
    forall i, j | 0 <= i < j < |s + t|
      ensures (s + t)[i] != (s + t)[j]
    {
      if i < |s| { assert (s + t)[i] in Ids(s); }
      if j >= |s| { assert (s + t)[j] in Ids(t); }
    }
  }

  // ---------- the order ----------

  /** The three parts of an order, each as what is kept of a list without repetition. */
  lemma Parts<T>(builtin: seq<T>, personal: seq<T>, requested: seq<T>, b: set<T>, p: set<T>, r: set<T>)
    requires b == Ids(builtin) && p == Ids(personal) && r == Ids(requested)
    ensures Ordered(builtin, personal, requested)
         == Keep(Unique(builtin), b - r) + Keep(Unique(requested), b + p) + Keep(Unique(personal), p - b - r)
  {
    var ordered := Keep(Unique(requested), b + p);
    UniqueIds(builtin);
    UniqueIds(personal);
    UniqueIds(requested);
    KeepIds(Unique(requested), b + p);
    assert forall x <- Unique(builtin) :: x in Ids(Unique(builtin));
    assert forall x <- Unique(personal) :: x in Ids(Unique(personal));
    WithoutIsKeep(Unique(builtin), Ids(ordered), b - r);
    WithoutIsKeep(Unique(personal), b, p - b);
    var own := Keep(Unique(personal), p - b);
    KeepIds(Unique(personal), p - b);
    assert forall x <- own :: x in Ids(own);
    WithoutIsKeep(own, Ids(ordered), p - b - r);
    KeepKeep(Unique(personal), p - b, p - b - r);
    assert (p - b) * (p - b - r) == p - b - r;
  }

  /** Exactly the built-in and the personal members, each once. */
  lemma OrderedMembers<T>(builtin: seq<T>, personal: seq<T>, requested: seq<T>)
    ensures Distinct(Ordered(builtin, personal, requested))
    ensures Ids(Ordered(builtin, personal, requested)) == Ids(builtin) + Ids(personal)
  {
    hide Ordered, Keep, Unique;
    var b, p, r := Ids(builtin), Ids(personal), Ids(requested);
    Parts(builtin, personal, requested, b, p, r);
    var x, y, z := Keep(Unique(builtin), b - r), Keep(Unique(requested), b + p), Keep(Unique(personal), p - b - r);
    KeptOf(builtin, b - r);
    KeptOf(requested, b + p);
    KeptOf(personal, p - b - r);
    DisjointParts(x, y, z, b, p, r);
  }

  lemma DisjointParts<T>(x: seq<T>, y: seq<T>, z: seq<T>, b: set<T>, p: set<T>, r: set<T>)
    requires Distinct(x) && Distinct(y) && Distinct(z)
    requires Ids(x) == b * (b - r) && Ids(y) == r * (b + p) && Ids(z) == p * (p - b - r)
    ensures Distinct(x + y + z) && Ids(x + y + z) == b + p
  {
    IdsConcat(x, y);
    IdsConcat(x + y, z);
    DistinctConcat(x, y);
    DistinctConcat(x + y, z);
    assert b * (b - r) + r * (b + p) + p * (p - b - r) == b + p;
  }

  lemma KeptOf<T>(s: seq<T>, members: set<T>)
    ensures Distinct(Keep(Unique(s), members)) && Ids(Keep(Unique(s), members)) == Ids(s) * members
  {
    UniqueDistinct(s);
    UniqueIds(s);
    KeepDistinct(Unique(s), members);
    KeepIds(Unique(s), members);
  }

  /** Requested members come in the requested order. */
  lemma OrderedAsRequested<T>(builtin: seq<T>, personal: seq<T>, requested: seq<T>)
    ensures Keep(Ordered(builtin, personal, requested), Ids(requested))
         == Keep(Unique(requested), Ids(builtin) + Ids(personal))
  {
    hide Ordered, Keep, Unique;
    var b, p, r := Ids(builtin), Ids(personal), Ids(requested);
    Parts(builtin, personal, requested, b, p, r);
    var x, y, z := Keep(Unique(builtin), b - r), Keep(Unique(requested), b + p), Keep(Unique(personal), p - b - r);
    KeepConcat(x + y, z, r);
    KeepConcat(x, y, r);
    KeepKeep(Unique(builtin), b - r, r);
    KeepKeep(Unique(personal), p - b - r, r);
    KeepKeep(Unique(requested), b + p, r);
    KeepNone(Unique(builtin), (b - r) * r);
    KeepNone(Unique(personal), (p - b - r) * r);
    UniqueIds(requested);
    assert forall x <- Unique(requested) :: x in Ids(Unique(requested));
    KeepSame(Unique(requested), (b + p) * r, b + p);
  }

  /** Ordering by an order just computed changes nothing. */
  lemma OrderedIdempotent<T>(builtin: seq<T>, personal: seq<T>, requested: seq<T>)
    ensures
      var order := Ordered(builtin, personal, requested);
      Ordered(builtin, personal, order) == order
  {
    hide Ordered;
    var order := Ordered(builtin, personal, requested);
    OrderedMembers(builtin, personal, requested);
    OrderedByAll(builtin, personal, order, Ids(builtin), Ids(personal));
  }

  lemma OrderedByAll<T>(builtin: seq<T>, personal: seq<T>, order: seq<T>, b: set<T>, p: set<T>)
    requires b == Ids(builtin) && p == Ids(personal) && Distinct(order) && Ids(order) == b + p
    ensures Ordered(builtin, personal, order) == order
  {
    hide Ordered, Keep, Unique;
    Parts(builtin, personal, order, b, p, b + p);
    assert b - (b + p) == {} && p - b - (b + p) == {};
    KeepNone(Unique(builtin), {});
    KeepNone(Unique(personal), {});
    UniqueOfDistinct(order);
    assert forall x <- order :: x in Ids(order);
    KeepAll(order, b + p);
  }

  /** Taking a personal member away leaves the order of all others as it was. */
  lemma OrderedWithoutOne<T>(builtin: seq<T>, personal: seq<T>, requested: seq<T>, id: T)
    requires id !in builtin
    ensures Ordered(builtin, Without(personal, {id}), requested) == Without(Ordered(builtin, personal, requested), {id})
  {
    hide Ordered, Keep, Unique, Without;
    var b, p, r := Ids(builtin), Ids(personal), Ids(requested);
    var fewer := Without(personal, {id});
    WithoutIds(personal, {id});
    Parts(builtin, personal, requested, b, p, r);
    Parts(builtin, fewer, requested, b, p - {id}, r);
    var all := b + p;
    var x, y, z := Keep(Unique(builtin), b - r), Keep(Unique(requested), all), Keep(Unique(personal), p - b - r);
    OrderedMembers(builtin, personal, requested);
    assert forall u <- x + y + z :: u in Ids(x + y + z);
    WithoutIsKeep(x + y + z, {id}, all - {id});
    KeepConcat(x + y, z, all - {id});
    KeepConcat(x, y, all - {id});
    KeepKeep(Unique(builtin), b - r, all - {id});
    KeepKeep(Unique(requested), all, all - {id});
    KeepKeep(Unique(personal), p - b - r, all - {id});
    assert (b - r) * (all - {id}) == b - r by { assert id !in b; }
    assert all * (all - {id}) == b + (p - {id}) by { assert id !in b; }
    assert (p - b - r) * (all - {id}) == (p - {id}) - b - r;
    FewerPersonal(personal, id, (p - {id}) - b - r);
  }

  lemma FewerPersonal<T>(personal: seq<T>, id: T, members: set<T>)
    requires id !in members && members <= Ids(personal)
    ensures Keep(Unique(Without(personal, {id})), members) == Keep(Unique(personal), members)
  {
    hide Keep, Unique, Without;
    var others := Ids(personal) - {id};
    assert forall x <- personal :: x in Ids(personal);
    WithoutIsKeep(personal, {id}, others);
    UniqueKeep(personal, others);
    KeepKeep(Unique(personal), others, members);
    assert others * members == members;
  }

  // ---------- renaming ----------

  function Rename<T(==)>(x: T, from: T, to: T): T { if x == from then to else x }

  function Renamed<T(==)>(s: seq<T>, from: T, to: T): (r: seq<T>)
    ensures |r| == |s|
  {
    if s == [] then [] else [Rename(s[0], from, to)] + Renamed(s[1..], from, to)
  }

  function RenamedSet<T(==)>(ids: set<T>, from: T, to: T): set<T> {
    if from in ids then ids - {from} + {to} else ids
  }

  lemma {:induction false} RenamedIds<T>(s: seq<T>, from: T, to: T)
    requires to !in s
    ensures Ids(Renamed(s, from, to)) == RenamedSet(Ids(s), from, to)
  {
    if s != [] {
      RenamedIds(s[1..], from, to);
      assert s == [s[0]] + s[1..];
      IdsConcat([s[0]], s[1..]);
      IdsConcat([Rename(s[0], from, to)], Renamed(s[1..], from, to));
    }
  }

  lemma {:induction false} RenamedConcat<T>(s: seq<T>, t: seq<T>, from: T, to: T)
    ensures Renamed(s + t, from, to) == Renamed(s, from, to) + Renamed(t, from, to)
  {
    if s == [] {
      assert s + t == t;
    } else {
      assert (s + t)[0] == s[0] && (s + t)[1..] == s[1..] + t;
      RenamedConcat(s[1..], t, from, to);
    }
  }

  lemma {:induction false} KeepRenamed<T>(s: seq<T>, members: set<T>, from: T, to: T)
    requires to !in s && to !in members
    ensures Keep(Renamed(s, from, to), RenamedSet(members, from, to)) == Renamed(Keep(s, members), from, to)
  {
    if s != [] {
      KeepRenamed(s[1..], members, from, to);
      RenamedConcat(if s[0] in members then [s[0]] else [], Keep(s[1..], members), from, to);
    }
  }

  lemma {:induction false} UniqueRenamed<T>(s: seq<T>, from: T, to: T)
    requires to !in s
    ensures Unique(Renamed(s, from, to)) == Renamed(Unique(s), from, to)
  {
    if s != [] {
      var front, last := s[..|s| - 1], s[|s| - 1];
      UniqueRenamed(front, from, to);
      assert s == front + [last];
      RenamedConcat(front, [last], from, to);
      RenamedConcat(Unique(front), if last in front then [] else [last], from, to);
      RenamedIds(front, from, to);
      var renamed := Renamed(front, from, to);
      assert (renamed + [Rename(last, from, to)])[..|renamed|] == renamed;
      assert Rename(last, from, to) in renamed <==> Rename(last, from, to) in Ids(renamed);
      assert last in front <==> last in Ids(front);
    }
  }

  lemma {:induction false} RenamedNone<T>(s: seq<T>, from: T, to: T)
    requires from !in s
    ensures Renamed(s, from, to) == s
  {
    if s != [] { RenamedNone(s[1..], from, to); }
  }

  /** Renaming a member everywhere renames it where it stands. */
  lemma OrderedRenamed<T>(builtin: seq<T>, personal: seq<T>, requested: seq<T>, from: T, to: T)
    requires from !in builtin && to !in builtin && to !in personal && to !in requested
    ensures Ordered(builtin, Renamed(personal, from, to), Renamed(requested, from, to))
         == Renamed(Ordered(builtin, personal, requested), from, to)
  {
    hide Unique, Keep, Renamed;
    var b, p, r := Ids(builtin), Ids(personal), Ids(requested);
    var p', r' := RenamedSet(p, from, to), RenamedSet(r, from, to);
    RenamedIds(personal, from, to);
    RenamedIds(requested, from, to);
    Parts(builtin, personal, requested, b, p, r);
    Parts(builtin, Renamed(personal, from, to), Renamed(requested, from, to), b, p', r');
    var x, y, z := Keep(Unique(builtin), b - r), Keep(Unique(requested), b + p), Keep(Unique(personal), p - b - r);
    RenamedConcat(x + y, z, from, to);
    RenamedConcat(x, y, from, to);
    PartRenamed(personal, p - b - r, from, to);
    PartRenamed(requested, b + p, from, to);
    assert RenamedSet(b + p, from, to) == b + p' by { assert from !in b; }
    PersonalPart(personal, b, p, r, from, to);
    KeepIds(Unique(builtin), b - r);
    UniqueIds(builtin);
    assert from !in x by { assert from in x ==> from in Ids(x); }
    RenamedNone(x, from, to);
    assert forall u <- Unique(builtin) :: u in Ids(Unique(builtin));
    KeepSame(Unique(builtin), b - r, b - r');
  }

  lemma PartRenamed<T>(s: seq<T>, members: set<T>, from: T, to: T)
    requires to !in s && to !in members
    ensures Keep(Unique(Renamed(s, from, to)), RenamedSet(members, from, to))
         == Renamed(Keep(Unique(s), members), from, to)
  {
    hide Keep, Unique, Renamed;
    UniqueRenamed(s, from, to);
    UniqueIds(s);
    assert to in Unique(s) ==> to in Ids(Unique(s));
    KeepRenamed(Unique(s), members, from, to);
  }

  /** The unordered personal members, before and after. */
  lemma PersonalPart<T>(personal: seq<T>, b: set<T>, p: set<T>, r: set<T>, from: T, to: T)
    requires p == Ids(personal) && to !in personal && from !in b && to !in b && to !in r
    ensures Keep(Unique(Renamed(personal, from, to)), RenamedSet(p - b - r, from, to))
         == Keep(Unique(Renamed(personal, from, to)), RenamedSet(p, from, to) - b - RenamedSet(r, from, to))
  {
    hide Keep, Unique, Renamed;
    var s := Unique(Renamed(personal, from, to));
    UniqueIds(Renamed(personal, from, to));
    RenamedIds(personal, from, to);
    assert forall u <- s :: u in Ids(s);
    KeepSame(s, RenamedSet(p - b - r, from, to), RenamedSet(p, from, to) - b - RenamedSet(r, from, to));
  }

  // ---------- an example ----------

  lemma AllRequested<T>(personal: seq<T>, requested: seq<T>)
    requires forall x <- personal :: x in requested
    ensures Ordered([], personal, requested) == Keep(Unique(requested), Ids(personal))
  {
    var p, r := Ids(personal), Ids(requested);
    Parts([], personal, requested, {}, p, r);
    assert {} + p == p && p - {} - r == {};
    KeepNone(Unique(personal), {});
  }

  lemma RequestedTwo<T>(a: T, b: T, c: T)
    requires a != b && b != c && a != c
    ensures Ordered([], [a, b], [c, a, b]) == [a, b]
  {
    var requested := [c, a, b];
    AllRequested([a, b], requested);
    UniqueOfDistinct(requested);
    assert Ids([a, b]) == {a, b};
    assert requested == [c] + [a, b];
    KeepConcat([c], [a, b], {a, b});
    KeepNone([c], {a, b});
    KeepAll([a, b], {a, b});
  }

  lemma RequestedAgain<T>(a: T, c: T)
    requires a != c
    ensures Ordered([], [a, c], [c, a, c]) == [c, a]
  {
    var requested := [c, a, c];
    AllRequested([a, c], requested);
    assert requested[..2] == [c, a];
    UniqueOfDistinct([c, a]);
    assert Unique(requested) == [c, a];
    assert Ids([a, c]) == {a, c};
    KeepAll([c, a], {a, c});
  }

  lemma RenamedLast<T>(a: T, b: T, c: T)
    requires a != b && b != c
    ensures Renamed([a, b], b, c) == [a, c] && Renamed([c, a, b], b, c) == [c, a, c]
  {
    assert [a, b][1..] == [b] && [b][1..] == [] && [c, a, b][1..] == [a, b];
  }
}
