/** Where a member stands in an order, and when renaming it leaves it there. */
module OrderPositions {
  import opened OwnedOrder

  /** What comes before the first x, or everything when there is none. */
  function Ahead<T(==)>(s: seq<T>, x: T): seq<T> {
    if s == [] || s[0] == x then [] else [s[0]] + Ahead(s[1..], x)
  }

  lemma {:induction false} AheadConcat<T>(s: seq<T>, t: seq<T>, x: T)
    ensures Ahead(s + t, x) == if x in s then Ahead(s, x) else s + Ahead(t, x)
  {
    if s == [] {
      assert s + t == t;
    } else {
      assert (s + t)[0] == s[0] && (s + t)[1..] == s[1..] + t && s == [s[0]] + s[1..];
      AheadConcat(s[1..], t, x);
      assert [s[0]] + (s[1..] + Ahead(t, x)) == s + Ahead(t, x);
    }
  }

  lemma {:induction false} AheadNone<T>(s: seq<T>, x: T)
    requires x !in s
    ensures Ahead(s, x) == s
  {
    if s != [] { AheadNone(s[1..], x); }
  }

  lemma {:induction false} AheadWithin<T>(s: seq<T>, x: T)
    ensures Ids(Ahead(s, x)) <= Ids(s) - {x}
  {
    if s != [] && s[0] != x {
      AheadWithin(s[1..], x);
      assert s == [s[0]] + s[1..];
      IdsConcat([s[0]], s[1..]);
      IdsConcat([s[0]], Ahead(s[1..], x));
    }
  }

  lemma {:induction false} AheadKeep<T>(s: seq<T>, members: set<T>, x: T)
    requires x in members
    ensures Ahead(Keep(s, members), x) == Keep(Ahead(s, x), members)
  {
    if s != [] && s[0] != x {
      AheadKeep(s[1..], members, x);
      var first := if s[0] in members then [s[0]] else [];
      AheadConcat(first, Keep(s[1..], members), x);
    }
  }

  lemma {:induction false} AheadUnique<T>(s: seq<T>, x: T)
    ensures Ahead(Unique(s), x) == Unique(Ahead(s, x))
  {
    if s != [] {
      var front, last := s[..|s| - 1], s[|s| - 1];
      assert s == front + [last];
      AheadUnique(front, x);
      AheadConcat(front, [last], x);
      AheadConcat(Unique(front), if last in front then [] else [last], x);
      UniqueIds(front);
      assert x in front <==> x in Ids(Unique(front));
      if x !in s {
        UniqueIds(s);
        assert x !in Ids(Unique(s));
        AheadNone(s, x);
        AheadNone(Unique(s), x);
      } else if x !in front {
        assert last == x && front + Ahead([x], x) == front;
        assert Unique(front) + Ahead([x], x) == Unique(front);
      }
    }
  }

  /** What comes before both of two values. */
  lemma {:induction false} AheadBoth<T>(s: seq<T>, x: T, y: T)
    ensures Ids(Ahead(Ahead(s, x), y)) == Ids(Ahead(s, x)) * Ids(Ahead(s, y))
  {
    if s != [] && s[0] != x && s[0] != y {
      AheadBoth(s[1..], x, y);
      IdsConcat([s[0]], Ahead(s[1..], x));
      IdsConcat([s[0]], Ahead(s[1..], y));
      IdsConcat([s[0]], Ahead(Ahead(s[1..], x), y));
      assert Ahead(s, x)[1..] == Ahead(s[1..], x);
    }
  }

  lemma {:induction false} AheadRenamed<T>(s: seq<T>, from: T, to: T)
    ensures Ahead(Renamed(s, from, to), to) == Ahead(Ahead(s, to), from)
  {
    if s != [] && s[0] != from && s[0] != to { AheadRenamed(s[1..], from, to); }
  }

  // ---------- ahead of a personal member ----------

  /** Ahead of a mentioned member are the unmentioned built-ins and the members mentioned before it. */
  lemma AheadOfMentioned<T>(builtin: seq<T>, personal: seq<T>, requested: seq<T>, x: T)
    requires x in personal && x !in builtin && x in requested
    ensures Ids(Ahead(Ordered(builtin, personal, requested), x))
         == Ids(builtin) - Ids(requested) + Ids(Ahead(requested, x)) * (Ids(builtin) + Ids(personal))
  {
    var b, p, r := Ids(builtin), Ids(personal), Ids(requested);
    Parts(builtin, personal, requested, b, p, r);
    var u, v, w := Keep(Unique(builtin), b - r), Keep(Unique(requested), b + p), Keep(Unique(personal), p - b - r);
    KeptOf(builtin, b - r);
    KeptOf(requested, b + p);
    assert x !in Ids(u) && x in Ids(v);
    AheadConcat(u + v, w, x);
    AheadConcat(u, v, x);
    AheadKeep(Unique(requested), b + p, x);
    AheadUnique(requested, x);
    KeptOf(Ahead(requested, x), b + p);
    IdsConcat(u, Ahead(v, x));
  }

  /** Ahead of an unmentioned member are at least the unmentioned built-ins and all mentioned members. */
  lemma AheadOfUnmentioned<T>(builtin: seq<T>, personal: seq<T>, requested: seq<T>, x: T)
    requires x in personal && x !in builtin && x !in requested
    ensures Ids(builtin) - Ids(requested) + Ids(requested) * (Ids(builtin) + Ids(personal))
         <= Ids(Ahead(Ordered(builtin, personal, requested), x))
  {
    var b, p, r := Ids(builtin), Ids(personal), Ids(requested);
    Parts(builtin, personal, requested, b, p, r);
    var u, v, w := Keep(Unique(builtin), b - r), Keep(Unique(requested), b + p), Keep(Unique(personal), p - b - r);
    KeptOf(builtin, b - r);
    KeptOf(requested, b + p);
    IdsConcat(u, v);
    assert x !in Ids(u + v);
    AheadConcat(u + v, w, x);
    IdsConcat(u + v, Ahead(w, x));
  }

  // ---------- standing in the same place ----------

  /** What comes after the first x. */
  function Behind<T(==)>(s: seq<T>, x: T): seq<T> {
    if s == [] then [] else if s[0] == x then s[1..] else Behind(s[1..], x)
  }

  lemma {:induction false} SplitAt<T>(s: seq<T>, x: T)
    requires x in s
    ensures s == Ahead(s, x) + [x] + Behind(s, x)
  {
    if s[0] != x { SplitAt(s[1..], x); }
  }

  lemma {:induction false} WithoutSplit<T>(a: seq<T>, c: seq<T>, x: T)
    requires x !in a && x !in c
    ensures Without(a + [x] + c, {x}) == a + c
  {
    var s := a + [x] + c;
    if a == [] {
      assert s[1..] == c;
      assert forall u <- c :: u in Ids(c);
      WithoutIsKeep(c, {x}, Ids(c));
      KeepAll(c, Ids(c));
    } else {
      assert s[1..] == a[1..] + [x] + c;
      WithoutSplit(a[1..], c, x);
    }
  }

  lemma RenamedSplit<T>(a: seq<T>, c: seq<T>, x: T, y: T)
    requires x !in a && x !in c
    ensures Renamed(a + [x] + c, x, y) == a + [y] + c
  {
    RenamedNone(a, x, y);
    RenamedNone(c, x, y);
    assert Renamed([x], x, y) == [y];
    RenamedConcat(a, [x], x, y);
    RenamedConcat(a + [x], c, x, y);
  }

  lemma DistinctSplit<T>(a: seq<T>, c: seq<T>, x: T)
    requires Distinct(a + [x] + c)
    ensures x !in a && x !in c && Distinct(a + c)
  {
    var s := a + [x] + c;
    assert forall i | 0 <= i < |a| :: s[i] == a[i];
    assert forall i | 0 <= i < |c| :: s[|a| + 1 + i] == c[i];
    assert s[|a|] == x;
  }

  /** With the others in the same order, y stands in t where x stands in s if and only if the same
      members are ahead. */
  lemma SamePlace<T>(s: seq<T>, t: seq<T>, x: T, y: T)
    requires Distinct(s) && Distinct(t) && x in s && y in t && y !in s
    requires Without(s, {x}) == Without(t, {y})
    ensures t == Renamed(s, x, y) <==> Ids(Ahead(s, x)) == Ids(Ahead(t, y))
  {
    SplitAt(s, x);
    SplitAt(t, y);
    SameSplit(Ahead(s, x), Behind(s, x), Ahead(t, y), Behind(t, y), x, y);
  }

  lemma SameSplit<T>(a: seq<T>, c: seq<T>, b: seq<T>, d: seq<T>, x: T, y: T)
    requires Distinct(a + [x] + c) && Distinct(b + [y] + d)
    requires Without(a + [x] + c, {x}) == Without(b + [y] + d, {y}) && y !in a
    ensures b + [y] + d == Renamed(a + [x] + c, x, y) <==> Ids(a) == Ids(b)
  {
    DistinctSplit(a, c, x);
    DistinctSplit(b, d, y);
    WithoutSplit(a, c, x);
    WithoutSplit(b, d, y);
    RenamedSplit(a, c, x, y);
    SamePrefix(a, c, b, d);
    SameMiddle(a, c, b, d, y);
  }

  lemma SamePrefix<T>(a: seq<T>, c: seq<T>, b: seq<T>, d: seq<T>)
    requires a + c == b + d && Distinct(a + c)
    ensures Ids(a) == Ids(b) <==> |a| == |b|
  {
    if |a| == |b| {
      assert a == (a + c)[..|a|] && b == (b + d)[..|b|];
    } else if |a| < |b| {
      NotAhead(a, c, b, d);
    } else {
      NotAhead(b, d, a, c);
    }
  }

  lemma NotAhead<T>(a: seq<T>, c: seq<T>, b: seq<T>, d: seq<T>)
    requires a + c == b + d && Distinct(a + c) && |a| < |b|
    ensures b[|a|] in Ids(b) && b[|a|] !in Ids(a)
  {
    var all := a + c;
    assert all[|a|] == b[|a|];
    assert forall i | 0 <= i < |a| :: all[i] == a[i];
  }

  lemma SameMiddle<T>(a: seq<T>, c: seq<T>, b: seq<T>, d: seq<T>, y: T)
    requires a + c == b + d && y !in a && y !in b
    ensures b + [y] + d == a + [y] + c <==> |a| == |b|
  {
    var s, t := a + [y] + c, b + [y] + d;
    if |a| == |b| {
      assert a == (a + c)[..|a|] && b == (b + d)[..|b|] && c == (a + c)[|a|..] && d == (b + d)[|b|..];
    } else if |a| < |b| {
      assert s[|a|] == y && t[|a|] == b[|a|];
    } else {
      assert t[|b|] == y && s[|b|] == a[|b|];
    }
  }

  // ---------- renaming ----------

  lemma {:induction false} WithoutRenamed<T>(s: seq<T>, from: T, to: T)
    requires to !in s
    ensures Without(Renamed(s, from, to), {to}) == Without(s, {from})
  {
    if s != [] { WithoutRenamed(s[1..], from, to); }
  }

  lemma {:induction false} KeepOfRenamed<T>(s: seq<T>, members: set<T>, from: T, to: T)
    requires from !in members && to !in members
    ensures Keep(Renamed(s, from, to), members) == Keep(s, members)
  {
    if s != [] { KeepOfRenamed(s[1..], members, from, to); }
  }

  lemma {:induction false} OthersRenamed<T>(s: seq<T>, from: T, to: T)
    ensures Ids(Renamed(s, from, to)) - {from, to} == Ids(s) - {from, to}
    ensures to in s ==> to in Renamed(s, from, to)
  {
    if s != [] {
      OthersRenamed(s[1..], from, to);
      assert s == [s[0]] + s[1..];
      IdsConcat([s[0]], s[1..]);
      IdsConcat([Rename(s[0], from, to)], Renamed(s[1..], from, to));
      assert Ids([s[0]]) == {s[0]};
      assert Ids([Rename(s[0], from, to)]) == {Rename(s[0], from, to)};
      var two := {from, to};
      assert {Rename(s[0], from, to)} - two == {s[0]} - two;
      assert Ids(s) - two == ({s[0]} - two) + (Ids(s[1..]) - two);
    }
  }

  lemma SameLess<T>(members: set<T>, r: set<T>, r': set<T>, two: set<T>)
    requires members !! two && r - two == r' - two
    ensures members - r == members - r'
  {
    forall m | m in members
      ensures m in r <==> m in r'
    {
      assert m in r - two <==> m in r;
      assert m in r' - two <==> m in r';
    }
  }

  /** An order does not depend on how it mentions what is not a member. */
  lemma OrderedIgnores<T>(builtin: seq<T>, personal: seq<T>, requested: seq<T>, from: T, to: T)
    requires from !in builtin && from !in personal && to !in builtin && to !in personal
    ensures Ordered(builtin, personal, Renamed(requested, from, to)) == Ordered(builtin, personal, requested)
  {
    hide Ordered, Keep, Unique, Renamed;
    var renamed := Renamed(requested, from, to);
    var b, p, r, r' := Ids(builtin), Ids(personal), Ids(requested), Ids(renamed);
    Parts(builtin, personal, requested, b, p, r);
    Parts(builtin, personal, renamed, b, p, r');
    OthersRenamed(requested, from, to);
    SameLess(b, r, r', {from, to});
    SameLess(p - b, r, r', {from, to});
    UniqueKeep(requested, b + p);
    UniqueKeep(renamed, b + p);
    KeepOfRenamed(requested, b + p, from, to);
  }

  /** Renaming a personal member leaves all others in their order. */
  lemma OthersStay<T>(builtin: seq<T>, personal: seq<T>, requested: seq<T>, from: T, to: T)
    requires from !in builtin && to !in builtin && to !in personal
    ensures Without(Ordered(builtin, Renamed(personal, from, to), Renamed(requested, from, to)), {to})
         == Without(Ordered(builtin, personal, requested), {from})
  {
    OrderedWithoutOne(builtin, Renamed(personal, from, to), Renamed(requested, from, to), to);
    OrderedWithoutOne(builtin, personal, requested, from);
    WithoutRenamed(personal, from, to);
    var others := Without(personal, {from});
    WithoutIds(personal, {from});
    assert forall u <- others :: u in Ids(others);
    OrderedIgnores(builtin, others, requested, from, to);
  }

  /** No mention of the new id comes too early: there is none, or all that is listed ahead of the old id
      is mentioned before the new one or is an unmentioned built-in. */
  predicate Undisturbed<T(==)>(builtin: seq<T>, personal: seq<T>, requested: seq<T>, from: T, to: T) {
    to !in requested || ListedBefore(builtin, requested, Ahead(Ordered(builtin, personal, requested), from), to)
  }

  predicate ListedBefore<T(==)>(builtin: seq<T>, requested: seq<T>, ahead: seq<T>, to: T) {
    forall m <- ahead :: if m in requested then m in Ahead(requested, to) else m in builtin
  }

  /** Renaming a personal member to a free id leaves it where it stands if and only if no mention of
      that id disturbs it. */
  lemma RenamedStays<T>(builtin: seq<T>, personal: seq<T>, requested: seq<T>, from: T, to: T)
    requires from in personal && from !in builtin && to !in builtin && to !in personal
    ensures
      Ordered(builtin, Renamed(personal, from, to), Renamed(requested, from, to))
      == Renamed(Ordered(builtin, personal, requested), from, to)
      <==> Undisturbed(builtin, personal, requested, from, to)
  {
    if to !in requested {
      OrderedRenamed(builtin, personal, requested, from, to);
    } else {
      var before := Ordered(builtin, personal, requested);
      var after := Ordered(builtin, Renamed(personal, from, to), Renamed(requested, from, to));
      OrderedMembers(builtin, personal, requested);
      OrderedMembers(builtin, Renamed(personal, from, to), Renamed(requested, from, to));
      RenamedIds(personal, from, to);
      assert from in Ids(before) && to in Ids(after) && to !in Ids(before);
      OthersStay(builtin, personal, requested, from, to);
      SamePlace(before, after, from, to);
      AheadDecides(builtin, personal, requested, from, to);
    }
  }

  lemma AheadOfRenamed<T>(builtin: seq<T>, personal: seq<T>, requested: seq<T>, from: T, to: T)
    requires from in personal && from !in builtin && to !in builtin && to !in personal && to in requested
    ensures Ids(Ahead(Ordered(builtin, Renamed(personal, from, to), Renamed(requested, from, to)), to))
         == Ids(builtin) - Ids(requested)
            + Ids(Ahead(requested, to)) * Ids(Ahead(requested, from)) * (Ids(builtin) + Ids(personal))
  {
    var b, p, r := Ids(builtin), Ids(personal), Ids(requested);
    var personal', requested' := Renamed(personal, from, to), Renamed(requested, from, to);
    RenamedIds(personal, from, to);
    OthersRenamed(requested, from, to);
    assert to in Ids(personal');
    AheadOfMentioned(builtin, personal', requested', to);
    AheadRenamed(requested, from, to);
    AheadBoth(requested, to, from);
    AheadWithin(requested, to);
    AheadWithin(requested, from);
    SameLess(b, r, Ids(requested'), {from, to});
    var early := Ids(Ahead(requested, to)) * Ids(Ahead(requested, from));
    assert from !in early && to !in early;
    assert early * (b + RenamedSet(p, from, to)) == early * (b + p);
  }

  lemma AheadDecides<T>(builtin: seq<T>, personal: seq<T>, requested: seq<T>, from: T, to: T)
    requires from in personal && from !in builtin && to !in builtin && to !in personal && to in requested
    ensures
      var ahead := Ahead(Ordered(builtin, personal, requested), from);
      Ids(ahead) == Ids(Ahead(Ordered(builtin, Renamed(personal, from, to), Renamed(requested, from, to)), to))
      <==> ListedBefore(builtin, requested, ahead, to)
  {
    var ahead := Ahead(Ordered(builtin, personal, requested), from);
    var b, p, r := Ids(builtin), Ids(personal), Ids(requested);
    var after := Ordered(builtin, Renamed(personal, from, to), Renamed(requested, from, to));
    AheadOfRenamed(builtin, personal, requested, from, to);
    AheadWithin(Ordered(builtin, personal, requested), from);
    OrderedMembers(builtin, personal, requested);
    AheadWithin(requested, to);
    if from in requested {
      AheadOfMentioned(builtin, personal, requested, from);
    } else {
      AheadOfUnmentioned(builtin, personal, requested, from);
      AheadNone(requested, from);
    }
    SetsDecide(Ids(ahead), Ids(Ahead(after, to)), b, p, r, Ids(Ahead(requested, from)), Ids(Ahead(requested, to)));
    assert forall m :: m in ahead <==> m in Ids(ahead);
  }

  lemma SetsDecide<T>(ahead: set<T>, after: set<T>, b: set<T>, p: set<T>, r: set<T>, beforeFrom: set<T>,
                      beforeTo: set<T>)
    requires ahead <= b + p && beforeTo <= r
    requires ahead == b - r + beforeFrom * (b + p) || (beforeFrom == r && b - r + r * (b + p) <= ahead)
    requires after == b - r + beforeTo * beforeFrom * (b + p)
    ensures ahead == after <==> forall m <- ahead :: if m in r then m in beforeTo else m in b
  {
    assert after <= ahead;
    if forall m <- ahead :: if m in r then m in beforeTo else m in b {
      assert forall m <- ahead :: m in after;
    }
  }
}
