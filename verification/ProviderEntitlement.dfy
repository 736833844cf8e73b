/** Account provider entitlements: what each provider is entitled to by the chain of its entitlement
    sources, and the memoised resolver that computes it. */
module ProviderEntitlement {
  import opened Wrappers
  import opened CelText

  type ProviderId = Text
  type ModelId = Text

  /** How a configured provider is accessed; only account access is resolved here. */
  datatype ConfiguredAccess = AccountPlan(startPlan: bool) | OtherPlan

  /** An insertion-ordered map of configured providers; one without access counts as OtherPlan. */
  datatype Configured = Configured(order: seq<ProviderId>, access: map<ProviderId, ConfiguredAccess>)

  ghost predicate ValidConfigured(c: Configured) {
    && (forall id :: id in c.order <==> id in c.access)
    && (forall i, j :: 0 <= i < j < |c.order| ==> c.order[i] != c.order[j])
  }

  /** An overlay's access may be of another kind, and may leave `entitled` open. */
  datatype OverlayAccess = AccountAccess(entitled: Option<bool>) | OtherAccess

  datatype Overlay = Overlay(access: Option<OverlayAccess>, models: Option<seq<ModelId>>)

  datatype Status = Available | Pending | Unavailable | Unknown

  datatype Connection = Connection(
    providerId: ProviderId, status: Status, models: Option<seq<ModelId>>, unavailableReason: Option<Text>,
    resetPrevious: bool, source: Option<ProviderId>, current: Option<bool>, connectionKey: Option<Text>,
    effectiveAt: Option<int>)

  datatype ResolveError =
    | DuplicateConnection | UnconfiguredProvider | NotAccountProvider | OwnSource | UnconfiguredSource | Cycle

  datatype Facts = Facts(configured: Configured, previous: map<ProviderId, Overlay>, connections: seq<Connection>)

  // ---------- indexing the connections ----------

  predicate IsAccount(c: Configured, id: ProviderId) {
    id in c.access && c.access[id].AccountPlan?
  }

  /** The empty string is no source. */
  predicate NamesSource(c: Connection) {
    c.source.Some? && c.source.value != []
  }

  function Fault(c: Configured, seen: set<ProviderId>, x: Connection): Option<ResolveError> {
    if x.providerId in seen then Some(DuplicateConnection)
    else if x.providerId !in c.access then Some(UnconfiguredProvider)
    else if !IsAccount(c, x.providerId) then Some(NotAccountProvider)
    else if x.source == Some(x.providerId) then Some(OwnSource)
    else if NamesSource(x) && x.source.value !in c.access then Some(UnconfiguredSource)
    else None
  }

  type Index = map<ProviderId, Connection>

  /** A connection of a configured account provider that names no source, or another configured one. */
  predicate Proper(c: Configured, x: Connection) {
    && x.providerId in c.access && c.access[x.providerId].AccountPlan?
    && (x.source.None? || x.source == Some([]) || x.source.value in c.access)
    && x.source != Some(x.providerId)
  }

  /** The check for a fault finds one in exactly the improper and the repeated connections. */
  lemma FaultIs(c: Configured, seen: set<ProviderId>, x: Connection)
    ensures Fault(c, seen, x).None? <==> Proper(c, x) && x.providerId !in seen
    ensures Fault(c, seen, x) == Some(DuplicateConnection) <==> x.providerId in seen
    ensures Fault(c, {}, x) == Some(UnconfiguredProvider) <==> x.providerId !in c.access
    ensures Fault(c, {}, x) == Some(OwnSource) <==>
              x.providerId in c.access && c.access[x.providerId].AccountPlan? && x.source == Some(x.providerId)
  {
  }

  ghost predicate Distinct(xs: seq<Connection>) {
    forall i, j :: 0 <= i < j < |xs| ==> xs[i].providerId != xs[j].providerId
  }

  /** The connections by provider. */
  function IndexOf(xs: seq<Connection>): Index {
    if xs == [] then map[] else IndexOf(xs[..|xs| - 1])[xs[|xs| - 1].providerId := xs[|xs| - 1]]
  }

  ghost predicate Indexes(index: Index, xs: seq<Connection>) {
    && (forall x <- xs :: x.providerId in index && index[x.providerId] == x)
    && (forall id <- index :: index[id] in xs && index[id].providerId == id)
  }

  ghost predicate Indexable(c: Configured, xs: seq<Connection>) {
    Distinct(xs) && forall x <- xs :: Proper(c, x)
  }

  /** Succeeds exactly when every connection is proper and no provider has two. */
  method IndexConnections(c: Configured, connections: seq<Connection>) returns (r: Result<Index, ResolveError>)
    ensures r.Ok? <==> Indexable(c, connections)
    ensures r.Ok? ==> r.value == IndexOf(connections) && Indexes(r.value, connections)
    ensures r.Err? ==> r.error != Cycle
  {
    hide Fault, Proper;
    var result: Index := map[];
    for i := 0 to |connections|
      invariant Indexable(c, connections[..i])
      invariant result == IndexOf(connections[..i]) && Indexes(result, connections[..i])
    {
      var fault := Fault(c, result.Keys, connections[i]);
      IndexStep(c, connections, i, result);
      if fault.Some? { return Err(fault.value); }
      result := result[connections[i].providerId := connections[i]];
    }
    assert connections[..|connections|] == connections;
    return Ok(result);
  }

  /** One more connection either joins the index or shows that there is none. */
  lemma IndexStep(c: Configured, xs: seq<Connection>, i: nat, index: Index)
    requires i < |xs| && Indexable(c, xs[..i]) && index == IndexOf(xs[..i]) && Indexes(index, xs[..i])
    ensures Fault(c, index.Keys, xs[i]) != Some(Cycle)
    ensures Fault(c, index.Keys, xs[i]).Some? ==> !Indexable(c, xs)
    ensures Fault(c, index.Keys, xs[i]).None? ==>
              var more := index[xs[i].providerId := xs[i]];
              Indexable(c, xs[..i + 1]) && more == IndexOf(xs[..i + 1]) && Indexes(more, xs[..i + 1])
  {
    FaultIs(c, index.Keys, xs[i]);
    if xs[i].providerId in index {
      DuplicateFound(xs, i, index);
    } else if Proper(c, xs[i]) {
      assert xs[..i + 1] == xs[..i] + [xs[i]];
      IndexAppend(c, xs[..i], xs[i], index);
    } else {
      assert xs[i] in xs && !Proper(c, xs[i]);
    }
  }

  lemma DuplicateFound(xs: seq<Connection>, i: nat, index: Index)
    requires i < |xs| && Indexes(index, xs[..i]) && xs[i].providerId in index
    ensures !Distinct(xs)
  {
    var j :| 0 <= j < i && xs[..i][j] == index[xs[i].providerId];
    assert xs[j].providerId == xs[i].providerId;
  }

  lemma IndexAppend(c: Configured, xs: seq<Connection>, x: Connection, index: Index)
    requires Indexable(c, xs) && Proper(c, x) && index == IndexOf(xs) && Indexes(index, xs) && x.providerId !in index
    ensures
      var more := index[x.providerId := x];
      Indexable(c, xs + [x]) && more == IndexOf(xs + [x]) && Indexes(more, xs + [x])
  {
    assert (xs + [x])[..|xs|] == xs;
    forall i | 0 <= i < |xs|
      ensures xs[i].providerId != x.providerId
    {
      assert xs[i] in xs;
    }
  }

  // ---------- the chain of sources ----------

  /** What the resolver works on: `index` holds the connections by provider. */
  datatype Env = Env(configured: Configured, previous: map<ProviderId, Overlay>, index: Index)

  function ConnectionOf(env: Env, id: ProviderId): Connection {
    if id in env.index then env.index[id]
    else Connection(id, Unknown, None, None, false, None, None, None, None)
  }

  /** An account provider whose entitlement comes from another provider. */
  predicate Derived(env: Env, id: ProviderId) {
    IsAccount(env.configured, id) && NamesSource(ConnectionOf(env, id))
  }

  function SourceOf(env: Env, id: ProviderId): ProviderId
    requires Derived(env, id)
  {
    ConnectionOf(env, id).source.value
  }

  /** Following sources from `id`, the nth provider is `root`, and every one before it is derived. */
  ghost predicate Leads(env: Env, id: ProviderId, n: nat, root: ProviderId)
    decreases n
  {
    if n == 0 then id == root else Derived(env, id) && Leads(env, SourceOf(env, id), n - 1, root)
  }

  /** The chain of `id` ends at `root` after n sources. */
  ghost predicate Rooted(env: Env, id: ProviderId, n: nat, root: ProviderId) {
    Leads(env, id, n, root) && !Derived(env, root)
  }

  ghost predicate HasRoot(env: Env, id: ProviderId) {
    exists n: nat, root :: Rooted(env, id, n, root)
  }

  function Granting(entitled: bool): Overlay {
    Overlay(Some(AccountAccess(Some(entitled))), None)
  }

  predicate Entitled(p: Overlay) {
    p.access == Some(AccountAccess(Some(true)))
  }

  function NormalizeModels(models: seq<ModelId>): (r: seq<ModelId>)
    ensures forall m <- r :: m != []
  {
    if models == [] then []
    else
      var first := Trim(models[0]);
      (if first == [] then [] else [first]) + NormalizeModels(models[1..])
  }

  /** What an account provider without a source is granted: by its own status, by the last known
      overlay, or nothing after the account changed. */
  function OwnOverlay(env: Env, id: ProviderId): Overlay
    requires IsAccount(env.configured, id)
  {
    var x := ConnectionOf(env, id);
    match x.status
    case Unavailable => Granting(false)
    case Unknown => if !x.resetPrevious && id in env.previous then env.previous[id] else Granting(false)
    case _ =>
      if env.configured.access[id].startPlan then
        Overlay(Some(AccountAccess(Some(x.status == Available))),
                Some(NormalizeModels(if x.models.Some? then x.models.value else [])))
      else Granting(x.status == Available)
  }

  /** The root's overlay, if the root is an account provider at all. */
  function RootEntitled(env: Env, root: ProviderId): bool {
    IsAccount(env.configured, root) && Entitled(OwnOverlay(env, root))
  }

  /** The specification: a root keeps its own overlay, a derived provider is granted what its root has. */
  function Resolved(env: Env, id: ProviderId, root: ProviderId): Overlay
    requires IsAccount(env.configured, id)
  {
    if Derived(env, id) then Granting(RootEntitled(env, root)) else OwnOverlay(env, id)
  }

  ghost predicate Correct(env: Env, id: ProviderId, p: Overlay) {
    IsAccount(env.configured, id) && exists n: nat, root :: Rooted(env, id, n, root) && p == Resolved(env, id, root)
  }

  lemma {:induction false} LeadsOn(env: Env, id: ProviderId, n: nat, mid: ProviderId)
    requires Leads(env, id, n, mid) && Derived(env, mid)
    ensures Leads(env, id, n + 1, SourceOf(env, mid))
    decreases n
  {
    if n > 0 {
      LeadsOn(env, SourceOf(env, id), n - 1, mid);
    } else {
      assert Leads(env, SourceOf(env, id), 0, SourceOf(env, mid));
    }
  }

  /** Past an intermediate provider the chain goes on to the same root. */
  lemma {:induction false} RootBeyond(env: Env, id: ProviderId, k: nat, mid: ProviderId, n: nat, root: ProviderId)
    requires Leads(env, id, k, mid) && Rooted(env, id, n, root)
    ensures k <= n && Rooted(env, mid, n - k, root)
    decreases k
  {
    if k > 0 { RootBeyond(env, SourceOf(env, id), k - 1, mid, n - 1, root); }
  }

  lemma RootUnique(env: Env, id: ProviderId, m: nat, r: ProviderId, n: nat, s: ProviderId)
    requires Rooted(env, id, m, r) && Rooted(env, id, n, s)
    ensures m == n && r == s
  {
    RootBeyond(env, id, m, r, n, s);
    RootBeyond(env, id, n, s, m, r);
  }

  /** A chain that runs into a cycle has no root. */
  lemma CycleHasNoRoot(env: Env, id: ProviderId, k: nat, mid: ProviderId, loop: nat)
    requires Leads(env, id, k, mid) && loop > 0 && Leads(env, mid, loop, mid)
    ensures !HasRoot(env, id)
  {
    if HasRoot(env, id) {
      var n: nat, root :| Rooted(env, id, n, root);
      RootBeyond(env, id, k, mid, n, root);
      RootBeyond(env, mid, loop, mid, n - k, root);
      RootUnique(env, mid, n - k, root, n - k - loop, root);
      assert false;
    }
  }

  lemma DerivedHasRoot(env: Env, id: ProviderId)
    requires Derived(env, id)
    ensures HasRoot(env, id) <==> HasRoot(env, SourceOf(env, id))
  {
    if HasRoot(env, id) {
      var n: nat, root :| Rooted(env, id, n, root);
      assert n > 0 && Rooted(env, SourceOf(env, id), n - 1, root);
    }
    if HasRoot(env, SourceOf(env, id)) {
      var n: nat, root :| Rooted(env, SourceOf(env, id), n, root);
      assert Rooted(env, id, n + 1, root);
    }
  }

  /** A derived provider is granted what its source turned out to have. */
  lemma DerivedCorrect(env: Env, id: ProviderId, source: Option<Overlay>)
    requires Derived(env, id)
    requires source.Some? <==> IsAccount(env.configured, SourceOf(env, id))
    requires source.Some? ==> Correct(env, SourceOf(env, id), source.value)
    ensures Correct(env, id, Granting(source.Some? && Entitled(source.value)))
  {
    var x := SourceOf(env, id);
    var n: nat, root := 0, x;
    if source.Some? {
      n, root :| Rooted(env, x, n, root) && source.value == Resolved(env, x, root);
    }
    assert Rooted(env, x, n, root);
    assert Rooted(env, id, n + 1, root);
    assert Resolved(env, id, root) == Granting(source.Some? && Entitled(source.value));
  }

  // ---------- the memoised resolver ----------

  /** The resolver's maps as an object. */
  class Resolver {
    const env: Env
    var resolvedByProviderId: map<ProviderId, Overlay>
    var resolving: set<ProviderId>

    constructor (env: Env)
      ensures Valid() && this.env == env && resolving == {}
    {
      this.env := env;
      resolvedByProviderId, resolving := map[], {};
    }

    ghost predicate Valid()
      reads this
    {
      forall id <- resolvedByProviderId :: Correct(env, id, resolvedByProviderId[id])
    }

    /** The providers being resolved are the chain that led here. */
    ghost predicate OnPath(path: seq<ProviderId>, id: ProviderId)
      reads this
    {
      && (forall x :: x in resolving <==> x in path)
      && (forall i :: 0 <= i < |path| ==> IsAccount(env.configured, path[i]) && Leads(env, path[i], |path| - i, id))
    }

    /** None for what is no account provider; otherwise what the chain of sources says, or Cycle when
        the chain has no root. */
    method ResolveProvider(id: ProviderId, ghost path: seq<ProviderId>)
      returns (r: Result<Option<Overlay>, ResolveError>)
      requires Valid() && OnPath(path, id)
      modifies this
      ensures Valid()
      ensures r.Err? <==> !HasRoot(env, id)
      ensures r.Err? ==> r.error == Cycle
      ensures r.Ok? ==> resolving == old(resolving)
      ensures r.Ok? ==> (r.value.Some? <==> IsAccount(env.configured, id))
      ensures r.Ok? && r.value.Some? ==> Correct(env, id, r.value.value)
      decreases env.configured.access.Keys - resolving
    {
      if id in resolvedByProviderId { return Ok(Some(resolvedByProviderId[id])); }
      if !IsAccount(env.configured, id) {
        assert Rooted(env, id, 0, id);
        return Ok(None);
      }
      if id in resolving {
        ghost var i :| 0 <= i < |path| && path[i] == id;
        CycleHasNoRoot(env, id, 0, id, |path| - i);
        return Err(Cycle);
      }
      resolving := resolving + {id};
      var connection := ConnectionOf(env, id);
      var resolved: Overlay;
      if NamesSource(connection) {
        var sourceId := connection.source.value;
        Extend(path, id);
        DerivedHasRoot(env, id);
        var source := ResolveProvider(sourceId, path + [id]);
        if source.Err? { return Err(source.error); }
        DerivedCorrect(env, id, source.value);
        resolved := Granting(source.value.Some? && Entitled(source.value.value));
      } else {
        assert Rooted(env, id, 0, id);
        resolved := OwnOverlay(env, id);
      }
      resolving := resolving - {id};
      resolvedByProviderId := resolvedByProviderId[id := resolved];
      return Ok(Some(resolved));
    }

    lemma Extend(path: seq<ProviderId>, id: ProviderId)
      requires Derived(env, id)
      requires forall i :: 0 <= i < |path| ==> IsAccount(env.configured, path[i]) && Leads(env, path[i], |path| - i, id)
      ensures
        var longer := path + [id];
        forall i :: 0 <= i < |longer| ==>
          IsAccount(env.configured, longer[i]) && Leads(env, longer[i], |longer| - i, SourceOf(env, id))
    {
      var longer := path + [id];
      forall i | 0 <= i < |longer|
        ensures IsAccount(env.configured, longer[i]) && Leads(env, longer[i], |longer| - i, SourceOf(env, id))
      {
        if i < |path| {
          LeadsOn(env, path[i], |path| - i, id);
        } else {
          assert Leads(env, SourceOf(env, id), 0, SourceOf(env, id));
        }
      }
    }
  }

  ghost predicate AllRooted(env: Env) {
    forall id <- env.configured.access :: IsAccount(env.configured, id) ==> HasRoot(env, id)
  }

  /** The overlays of exactly the account providers, each as its chain of sources says. */
  ghost predicate Overlays(env: Env, overlays: map<ProviderId, Overlay>) {
    && (forall id :: id in overlays <==> IsAccount(env.configured, id))
    && (forall id <- overlays :: Correct(env, id, overlays[id]))
  }

  // ---------- what the connections say ----------

  /** Following the sources that the connections name, the nth provider from `id` on is `root`, an account
      provider without a source or no account provider. */
  ghost predicate ChainTo(c: Configured, xs: seq<Connection>, id: ProviderId, n: nat, root: ProviderId)
    decreases n
  {
    if n == 0 then id == root && forall x <- xs :: x.providerId == id && IsAccount(c, id) ==> !NamesSource(x)
    else
      exists x <- xs ::
        x.providerId == id && IsAccount(c, id) && NamesSource(x) && ChainTo(c, xs, x.source.value, n - 1, root)
  }

  /** What was granted before. */
  ghost predicate Held(previous: map<ProviderId, Overlay>, id: ProviderId) {
    id in previous && previous[id].access == Some(AccountAccess(Some(true)))
  }

  /** A root grants when its connection is available; when nothing is known of it and its account is
      still the same, it grants what it granted before. */
  ghost predicate Grants(f: Facts, root: ProviderId) {
    && IsAccount(f.configured, root)
    && (forall x <- f.connections :: x.providerId == root ==>
          x.status == Available || (x.status == Unknown && !x.resetPrevious && Held(f.previous, root)))
    && ((forall x <- f.connections :: x.providerId != root) ==> Held(f.previous, root))
  }

  ghost predicate PickedAt(models: seq<ModelId>, k: nat, m: ModelId) {
    k < |models| && m == Trim(models[k]) && m != []
  }

  ghost predicate Ascending(ks: seq<nat>) {
    forall i, j :: 0 <= i < j < |ks| ==> ks[i] < ks[j]
  }

  /** The result picks, in order, the elements at the indices `ks`, trimmed: all from `low` on that are
      not blank. */
  ghost predicate Picks(models: seq<ModelId>, low: nat, ks: seq<nat>, r: seq<ModelId>) {
    && |ks| == |r|
    && Ascending(ks)
    && (forall i :: 0 <= i < |ks| ==> ks[i] >= low && PickedAt(models, ks[i], r[i]))
    && (forall k: nat :: low <= k < |models| && Trim(models[k]) != [] ==> k in ks)
  }

  ghost predicate TrimmedModels(models: seq<ModelId>, r: seq<ModelId>) {
    exists ks :: Picks(models, 0, ks, r)
  }

  function Moved(ks: seq<nat>): (moved: seq<nat>)
    ensures |moved| == |ks| && forall i :: 0 <= i < |ks| ==> moved[i] == ks[i] + 1
  {
    seq(|ks|, i requires 0 <= i < |ks| => ks[i] + 1)
  }

  lemma MovedIn(ks: seq<nat>, k: nat)
    ensures k in Moved(ks) <==> k > 0 && k - 1 in ks
  {
    if k > 0 && k - 1 in ks {
      var i :| 0 <= i < |ks| && ks[i] == k - 1;
      assert Moved(ks)[i] == k;
    }
  }

  lemma AscendingMoved(ks: seq<nat>)
    requires Ascending(ks)
    ensures Ascending(Moved(ks))
  {
  }

  lemma AscendingFirst(ks: seq<nat>)
    requires Ascending(ks) && forall i :: 0 <= i < |ks| ==> ks[i] > 0
    ensures Ascending([0] + ks)
  {
  }

  /** Picked from the tail is picked from index 1 on. */
  lemma PicksLater(models: seq<ModelId>, ks: seq<nat>, r: seq<ModelId>)
    requires models != [] && Picks(models[1..], 0, ks, r)
    ensures Picks(models, 1, Moved(ks), r)
  {
    hide Trim, Ascending;
    AscendingMoved(ks);
    forall i | 0 <= i < |ks|
      ensures PickedAt(models, Moved(ks)[i], r[i])
    {
      assert PickedAt(models[1..], ks[i], r[i]);
    }
    forall k: nat | 0 < k < |models| && Trim(models[k]) != []
      ensures k in Moved(ks)
    {
      assert models[1..][k - 1] == models[k];
      MovedIn(ks, k);
    }
  }

  lemma PicksFirst(models: seq<ModelId>, ks: seq<nat>, r: seq<ModelId>)
    requires models != [] && Trim(models[0]) != [] && Picks(models, 1, ks, r)
    ensures Picks(models, 0, [0] + ks, [Trim(models[0])] + r)
  {
    hide Trim, Ascending;
    AscendingFirst(ks);
    assert ([0] + ks)[0] == 0;
  }

  lemma {:induction false} NormalizedPicks(models: seq<ModelId>) returns (ks: seq<nat>)
    ensures Picks(models, 0, ks, NormalizeModels(models))
  {
    hide Trim, Picks;
    if models == [] {
      ks := [];
      NothingPicked();
    } else {
      var later := NormalizedPicks(models[1..]);
      var r := NormalizeModels(models[1..]);
      PicksLater(models, later, r);
      if Trim(models[0]) == [] {
        ks := Moved(later);
        BlankFirst(models, ks, r);
        assert [] + r == r;
      } else {
        ks := [0] + Moved(later);
        PicksFirst(models, Moved(later), r);
      }
    }
  }

  lemma BlankFirst(models: seq<ModelId>, ks: seq<nat>, r: seq<ModelId>)
    requires models != [] && Trim(models[0]) == [] && Picks(models, 1, ks, r)
    ensures Picks(models, 0, ks, r)
  {
    hide Trim, Ascending;
  }

  lemma NothingPicked()
    ensures Picks([], 0, [], [])
  {
  }

  /** The overlay of an account provider that has no source. */
  ghost predicate OwnGrant(f: Facts, id: ProviderId, p: Overlay)
    requires IsAccount(f.configured, id)
  {
    && (forall x <- f.connections :: x.providerId == id ==>
          match x.status
          case Unavailable => p == Overlay(Some(AccountAccess(Some(false))), None)
          case Unknown =>
            p == if !x.resetPrevious && id in f.previous then f.previous[id]
                 else Overlay(Some(AccountAccess(Some(false))), None)
          case _ =>
            && p.access == Some(AccountAccess(Some(x.status == Available)))
            && if f.configured.access[id].startPlan then
                 p.models.Some? && TrimmedModels(if x.models.Some? then x.models.value else [], p.models.value)
               else p.models.None?)
    && ((forall x <- f.connections :: x.providerId != id) ==>
          p == if id in f.previous then f.previous[id] else Overlay(Some(AccountAccess(Some(false))), None))
  }

  /** Providers are entitled as the connection of their root says, and those without a source have the
      overlay their own connection gives them. */
  ghost predicate GrantedAsConnected(f: Facts, overlays: map<ProviderId, Overlay>) {
    && (forall id :: id in overlays <==> IsAccount(f.configured, id))
    && (forall id <- overlays :: exists n: nat, root :: ChainTo(f.configured, f.connections, id, n, root))
    && (forall id <- overlays, n: nat, root :: ChainTo(f.configured, f.connections, id, n, root) ==>
          (overlays[id].access == Some(AccountAccess(Some(true))) <==> Grants(f, root)))
    && (forall id <- overlays :: ChainTo(f.configured, f.connections, id, 0, id) ==> OwnGrant(f, id, overlays[id]))
  }

  function EnvOf(f: Facts): Env { Env(f.configured, f.previous, IndexOf(f.connections)) }

  lemma {:induction false} ChainIs(f: Facts, id: ProviderId, n: nat, root: ProviderId)
    requires Indexable(f.configured, f.connections) && Indexes(IndexOf(f.connections), f.connections)
    ensures ChainTo(f.configured, f.connections, id, n, root) <==> Rooted(EnvOf(f), id, n, root)
    decreases n
  {
    var index := IndexOf(f.connections);
    assert forall x <- f.connections :: x.providerId == id ==> id in index && index[id] == x;
    if n > 0 {
      forall x <- f.connections | NamesSource(x)
        ensures ChainTo(f.configured, f.connections, x.source.value, n - 1, root) <==>
                  Rooted(EnvOf(f), x.source.value, n - 1, root)
      {
        ChainIs(f, x.source.value, n - 1, root);
      }
    }
  }

  lemma OverlayEntitled(env: Env, id: ProviderId, p: Overlay, n: nat, root: ProviderId)
    requires Correct(env, id, p) && Rooted(env, id, n, root)
    ensures Entitled(p) == RootEntitled(env, root)
  {
    var m: nat, r :| Rooted(env, id, m, r) && p == Resolved(env, id, r);
    RootUnique(env, id, m, r, n, root);
  }

  lemma GrantsIs(f: Facts, root: ProviderId)
    requires Indexes(IndexOf(f.connections), f.connections)
    ensures Grants(f, root) <==> RootEntitled(EnvOf(f), root)
  {
    hide NormalizeModels;
    var index := IndexOf(f.connections);
    assert forall x <- f.connections :: x.providerId == root ==> root in index && index[root] == x;
    if root in index { assert index[root] in f.connections && index[root].providerId == root; }
  }

  lemma OwnGrantIs(f: Facts, id: ProviderId)
    requires Indexes(IndexOf(f.connections), f.connections) && IsAccount(f.configured, id)
    ensures OwnGrant(f, id, OwnOverlay(EnvOf(f), id))
  {
    hide NormalizeModels, Picks, IndexOf;
    var index := IndexOf(f.connections);
    assert forall x <- f.connections :: x.providerId == id ==> id in index && index[id] == x;
    if id in index {
      var x := index[id];
      assert x in f.connections && x.providerId == id;
      NormalizedTrims(if x.models.Some? then x.models.value else []);
    }
  }

  lemma NormalizedTrims(models: seq<ModelId>)
    ensures TrimmedModels(models, NormalizeModels(models))
  {
    var ks := NormalizedPicks(models);
  }

  /** The chains of sources and the connections at their roots decide what is granted. */
  lemma Granted(f: Facts, overlays: map<ProviderId, Overlay>)
    requires Indexable(f.configured, f.connections) && Indexes(IndexOf(f.connections), f.connections)
    requires Overlays(EnvOf(f), overlays)
    ensures GrantedAsConnected(f, overlays)
  {
    hide Grants, OwnGrant, RootEntitled, OwnOverlay, ChainTo, Rooted, Indexable, Indexes, Granting;
    forall id <- overlays
      ensures exists n: nat, root :: ChainTo(f.configured, f.connections, id, n, root)
    {
      var n: nat, root :| Rooted(EnvOf(f), id, n, root);
      ChainIs(f, id, n, root);
    }
    forall id <- overlays, n: nat, root | ChainTo(f.configured, f.connections, id, n, root)
      ensures Entitled(overlays[id]) <==> Grants(f, root)
    {
      ChainIs(f, id, n, root);
      OverlayEntitled(EnvOf(f), id, overlays[id], n, root);
      GrantsIs(f, root);
    }
    forall id <- overlays | ChainTo(f.configured, f.connections, id, 0, id)
      ensures OwnGrant(f, id, overlays[id])
    {
      ChainIs(f, id, 0, id);
      OwnIsKept(EnvOf(f), id, overlays[id]);
      OwnGrantIs(f, id);
    }
  }

  lemma OwnIsKept(env: Env, id: ProviderId, p: Overlay)
    requires Correct(env, id, p) && Rooted(env, id, 0, id)
    ensures p == OwnOverlay(env, id)
  {
    hide OwnOverlay;
  }

  /** Fails when the connections are improper or some chain of sources is a cycle, and only then;
      otherwise every account provider gets what its root has, in whatever order they are visited. */
  method ResolveAccountProviderConfigs(configured: Configured, previous: map<ProviderId, Overlay>,
                                       connections: seq<Connection>)
    returns (r: Result<map<ProviderId, Overlay>, ResolveError>)
    requires ValidConfigured(configured)
    ensures
      var env := Env(configured, previous, IndexOf(connections));
      && (r.Ok? <==> Indexable(configured, connections) && AllRooted(env))
      && (r.Ok? ==> Overlays(env, r.value))
      && (r.Ok? ==> GrantedAsConnected(Facts(configured, previous, connections), r.value))
      && (r.Err? ==> (r.error == Cycle <==> Indexable(configured, connections)))
  {
    var index := IndexConnections(configured, connections);
    if index.Err? { return Err(index.error); }
    var env := Env(configured, previous, index.value);
    var resolver := new Resolver(env);
    var resolved: map<ProviderId, Overlay> := map[];
    for i := 0 to |configured.order|
      invariant resolver.Valid() && resolver.env == env && resolver.resolving == {}
      invariant forall id :: id in resolved <==> id in configured.order[..i] && IsAccount(configured, id)
      invariant forall id <- resolved :: Correct(env, id, resolved[id])
    {
      var id := configured.order[i];
      assert id in configured.order;
      if configured.access[id].AccountPlan? {
        var provider := resolver.ResolveProvider(id, []);
        if provider.Err? { return Err(provider.error); }
        resolved := resolved[id := provider.value.value];
      }
    }
    Granted(Facts(configured, previous, connections), resolved);
    return Ok(resolved);
  }

  // ---------- the states published beside the overlays ----------

  datatype AccountState = AccountState(
    availability: Status, entitled: bool, unavailableReason: Option<Text>, current: Option<bool>,
    connectionKey: Option<Text>, effectiveAt: Option<int>)

  /** What states are computed from: the resolved overlays and the states of the previous round. */
  datatype StateEnv = StateEnv(
    env: Env, overlays: map<ProviderId, Overlay>, previousStates: map<ProviderId, AccountState>)

  ghost predicate ValidStateEnv(s: StateEnv) {
    && Overlays(s.env, s.overlays)
    && forall id <- s.env.index :: IsAccount(s.env.configured, id) && s.env.index[id].providerId == id
  }

  /** The source whose state a connection takes over: named, and itself connected. */
  function Inherits(s: StateEnv, x: Connection): Option<Connection> {
    if NamesSource(x) && x.source.value in s.env.index then Some(s.env.index[x.source.value]) else None
  }

  function OrElse<T>(a: Option<T>, b: Option<T>): Option<T> {
    if a.Some? then a else b
  }

  /** One connection's state, given the state it inherits. */
  function StateFrom(s: StateEnv, x: Connection, inherited: Option<AccountState>): AccountState {
    var previous :=
      if !x.resetPrevious && x.providerId in s.previousStates then Some(s.previousStates[x.providerId]) else None;
    var kept := if x.status == Unknown && inherited.None? then previous else None;
    AccountState(
      if inherited.Some? then if inherited.value.entitled then Available else Unavailable
      else if kept.Some? then kept.value.availability
      else x.status,
      x.providerId in s.overlays && Entitled(s.overlays[x.providerId]),
      if inherited.Some? then inherited.value.unavailableReason
      else if kept.Some? then kept.value.unavailableReason
      else if x.status == Unavailable then x.unavailableReason
      else None,
      OrElse(x.current, if kept.Some? then kept.value.current else None),
      x.connectionKey,
      OrElse(x.effectiveAt, if kept.Some? then kept.value.effectiveAt else None))
  }

  /** The state of the provider whose chain ends at `root` after n sources. */
  function StateOf(s: StateEnv, id: ProviderId, n: nat, root: ProviderId): AccountState
    requires ValidStateEnv(s) && id in s.env.index && Rooted(s.env, id, n, root)
    decreases n
  {
    var x := s.env.index[id];
    var source := Inherits(s, x);
    StateFrom(s, x, if source.Some? then Some(StateOf(s, source.value.providerId, n - 1, root)) else None)
  }

  ghost predicate StateCorrect(s: StateEnv, id: ProviderId, state: AccountState)
    requires ValidStateEnv(s)
  {
    id in s.env.index && exists n: nat, root :: Rooted(s.env, id, n, root) && state == StateOf(s, id, n, root)
  }

  /** A state says "entitled" exactly when the overlay published with it does, and both say what the
      root of the chain is granted. */
  lemma StateAgreesWithOverlay(s: StateEnv, id: ProviderId, n: nat, root: ProviderId)
    requires ValidStateEnv(s) && id in s.env.index && Rooted(s.env, id, n, root)
    ensures StateOf(s, id, n, root).entitled == Entitled(s.overlays[id]) == RootEntitled(s.env, root)
  {
    OverlayEntitled(s.env, id, s.overlays[id], n, root);
  }

  /** Without a connected source a known status is published as it is, an unknown one as the last state
      says; what the connection itself says of `current` and `effectiveAt` comes first, and the last state
      never shows through after the account changed. */
  lemma RootState(s: StateEnv, id: ProviderId, n: nat, root: ProviderId)
    requires ValidStateEnv(s) && id in s.env.index && Rooted(s.env, id, n, root)
    requires Inherits(s, s.env.index[id]).None?
    ensures
      var x, state := s.env.index[id], StateOf(s, id, n, root);
      if x.status == Unknown && !x.resetPrevious && id in s.previousStates then
        state == s.previousStates[id].(
          entitled := Entitled(s.overlays[id]),
          current := if x.current.Some? then x.current else s.previousStates[id].current,
          connectionKey := x.connectionKey,
          effectiveAt := if x.effectiveAt.Some? then x.effectiveAt else s.previousStates[id].effectiveAt)
      else
        && state.availability == x.status && state.current == x.current && state.effectiveAt == x.effectiveAt
        && state.unavailableReason == (if x.status == Unavailable then x.unavailableReason else None)
        && state.connectionKey == x.connectionKey
  {
    StateAgreesWithOverlay(s, id, n, root);
  }

  /** A derived provider whose source is connected never contradicts its overlay: it is available
      exactly when it is entitled. */
  lemma DerivedStateConsistent(s: StateEnv, id: ProviderId, n: nat, root: ProviderId)
    requires ValidStateEnv(s) && id in s.env.index && Rooted(s.env, id, n, root)
    requires Inherits(s, s.env.index[id]).Some?
    ensures
      var state := StateOf(s, id, n, root);
      && state.availability == (if state.entitled then Available else Unavailable)
      && var x := s.env.index[id];
         state.current == x.current && state.effectiveAt == x.effectiveAt && state.connectionKey == x.connectionKey
  {
    StateAgreesWithOverlay(s, id, n, root);
    StateAgreesWithOverlay(s, s.env.index[id].source.value, n - 1, root);
  }

  /** Every source on the way to the root is connected. */
  predicate Connected(s: StateEnv, id: ProviderId, n: nat)
    decreases n
  {
    id in s.env.index &&
    (n == 0 || (Inherits(s, s.env.index[id]).Some? && Connected(s, s.env.index[id].source.value, n - 1)))
  }

  /** Along a connected chain the reason is the root's reason. */
  lemma {:induction false} ReasonFromRoot(s: StateEnv, id: ProviderId, n: nat, root: ProviderId)
    requires ValidStateEnv(s) && Rooted(s.env, id, n, root) && Connected(s, id, n)
    ensures root in s.env.index
    ensures StateOf(s, id, n, root).unavailableReason == StateOf(s, root, 0, root).unavailableReason
    decreases n
  {
    if n > 0 {
      ReasonFromRoot(s, s.env.index[id].source.value, n - 1, root);
    } else {
      assert Rooted(s.env, root, 0, root);
    }
  }

  /** The published `current` is this round's choice exactly unless the connection leaves it open and an
      unknown status keeps the previous one. */
  lemma CurrentIsOwn(s: StateEnv, id: ProviderId, n: nat, root: ProviderId)
    requires ValidStateEnv(s) && id in s.env.index && Rooted(s.env, id, n, root)
    ensures
      var x := s.env.index[id];
      StateOf(s, id, n, root).current == x.current <==>
        (x.current.Some? || x.status != Unknown || Inherits(s, x).Some? || x.resetPrevious
         || id !in s.previousStates || s.previousStates[id].current.None?)
  {
  }

  /** One account provider whose connection, of status unknown, says nothing of `current`, after a round
      that published it as current. */
  function UnknownAgain(id: ProviderId): StateEnv {
    var x := Connection(id, Unknown, None, None, false, None, None, None, None);
    StateEnv(Env(Configured([id], map[id := AccountPlan(false)]), map[], IndexOf([x])), map[id := Granting(false)],
             map[id := AccountState(Available, true, None, Some(true), None, None)])
  }

  /** It is published as current again. */
  lemma PreviousCurrentSurvives(id: ProviderId)
    ensures
      var s := UnknownAgain(id);
      && ValidConfigured(s.env.configured) && ValidStateEnv(s)
      && id in s.env.index && s.env.index[id].current.None?
      && Rooted(s.env, id, 0, id) && StateOf(s, id, 0, id).current == Some(true)
  {
    var s := UnknownAgain(id);
    var x := Connection(id, Unknown, None, None, false, None, None, None, None);
    assert [x][..0] == [] && IndexOf([]) == map[];
    assert s.env.index == map[id := x];
    assert Rooted(s.env, id, 0, id);
    assert Resolved(s.env, id, id) == Granting(false);
    assert Correct(s.env, id, Granting(false));
  }

  /** The state map as an object; it has no guard against cycles, and needs none. */
  class StateResolver {
    const s: StateEnv
    var states: map<ProviderId, AccountState>

    constructor (s: StateEnv)
      requires ValidStateEnv(s)
      ensures Valid() && this.s == s && states == map[]
    {
      this.s, states := s, map[];
    }

    ghost predicate Valid()
      reads this
    {
      ValidStateEnv(s) && forall id <- states :: StateCorrect(s, id, states[id])
    }

    method ResolveState(x: Connection, ghost n: nat, ghost root: ProviderId) returns (state: AccountState)
      requires Valid() && x.providerId in s.env.index && s.env.index[x.providerId] == x
      requires Rooted(s.env, x.providerId, n, root)
      modifies this
      ensures Valid() && state == StateOf(s, x.providerId, n, root)
      ensures states.Keys >= old(states.Keys) + {x.providerId}
      decreases n
    {
      if x.providerId in states {
        ghost var m: nat, r :|
          Rooted(s.env, x.providerId, m, r) && states[x.providerId] == StateOf(s, x.providerId, m, r);
        RootUnique(s.env, x.providerId, m, r, n, root);
        return states[x.providerId];
      }
      var source := Inherits(s, x);
      var inheritedState := None;
      if source.Some? {
        var inherited := ResolveState(source.value, n - 1, root);
        inheritedState := Some(inherited);
      }
      state := StateFrom(s, x, inheritedState);
      states := states[x.providerId := state];
    }
  }

  /** The states of all connections, one after the other. */
  method ResolveStates(s: StateEnv, connections: seq<Connection>) returns (states: map<ProviderId, AccountState>)
    requires ValidStateEnv(s) && forall x <- connections :: ResolvableState(s, x)
    ensures forall x <- connections :: x.providerId in states
    ensures forall id <- states :: StateCorrect(s, id, states[id])
  {
    hide ValidStateEnv, Rooted, StateOf, StateCorrect;
    var resolver := new StateResolver(s);
    for i := 0 to |connections|
      invariant resolver.Valid() && resolver.s == s
      invariant forall j :: 0 <= j < i ==> connections[j].providerId in resolver.states
    {
      var x := connections[i];
      assert x in connections && ResolvableState(s, x);
      ghost var n: nat, root :| Rooted(s.env, x.providerId, n, root);
      var _ := resolver.ResolveState(x, n, root);
    }
    return resolver.states;
  }

  /** An indexed connection whose chain has a root. */
  ghost predicate ResolvableState(s: StateEnv, x: Connection) {
    x.providerId in s.env.index && s.env.index[x.providerId] == x && HasRoot(s.env, x.providerId)
  }

  /** The whole resolution of one round: overlays and states, or an error. */
  method Resolve(configured: Configured, previous: map<ProviderId, Overlay>,
                 previousStates: map<ProviderId, AccountState>, connections: seq<Connection>)
    returns (r: Result<(map<ProviderId, Overlay>, map<ProviderId, AccountState>), ResolveError>)
    requires ValidConfigured(configured)
    ensures
      var env := Env(configured, previous, IndexOf(connections));
      && (r.Ok? <==> Indexable(configured, connections) && AllRooted(env))
      && (r.Ok? ==>
            var s := StateEnv(env, r.value.0, previousStates);
            && ValidStateEnv(s)
            && GrantedAsConnected(Facts(configured, previous, connections), r.value.0)
            && (forall x <- connections :: x.providerId in r.value.1)
            && (forall id <- r.value.1 :: StateCorrect(s, id, r.value.1[id])))
  {
    var overlays := ResolveAccountProviderConfigs(configured, previous, connections);
    if overlays.Err? { return Err(overlays.error); }
    var index := IndexConnections(configured, connections);
    var env := Env(configured, previous, index.value);
    var s := StateEnv(env, overlays.value, previousStates);
    assert forall x <- connections :: Proper(configured, x);
    var states := ResolveStates(s, connections);
    return Ok((overlays.value, states));
  }
}
