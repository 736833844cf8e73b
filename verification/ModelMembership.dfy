/** Editing a provider's personal models and their order.

    A provider overlay keeps the personal model ids and an order over inherited and personal ones;
    `inherited` are the ids it gets from the built-in configuration, its template or the caller. */
module ModelMembership {
  import opened Wrappers
  import opened CelText
  import opened OwnedOrder
  import opened OrderPositions

  type ModelId = Text

  datatype Provider = Provider(personalModelIds: Option<seq<ModelId>>, modelOrder: Option<seq<ModelId>>)

  datatype EditError = EmptyId | NoProvider | AlreadyExists | NotFound | Inherited

  function OrEmpty(ids: Option<seq<ModelId>>): seq<ModelId> {
    if ids.Some? then ids.value else []
  }

  /** The order in which a provider's models are listed. */
  function OrderOf(inherited: seq<ModelId>, p: Provider): seq<ModelId> {
    Ordered(inherited, OrEmpty(p.personalModelIds), OrEmpty(p.modelOrder))
  }

  function With(inherited: seq<ModelId>, personal: seq<ModelId>, requested: seq<ModelId>): Provider {
    Provider(Some(personal), Some(Ordered(inherited, personal, requested)))
  }

  /** Storing a normalized order lists the models in that order. */
  lemma OrderOfWith(inherited: seq<ModelId>, personal: seq<ModelId>, requested: seq<ModelId>)
    ensures OrderOf(inherited, With(inherited, personal, requested)) == Ordered(inherited, personal, requested)
  {
    OrderedIdempotent(inherited, personal, requested);
  }

  /** An overlay is written for a provider that has one, or that the built-in configuration has. */
  function Writable(provider: Option<Provider>, builtinExists: bool): Option<Provider> {
    if provider.Some? then provider else if builtinExists then Some(Provider(None, None)) else None
  }

  // ---------- the edits ----------

  function AddPersonalModel(inherited: seq<ModelId>, provider: Option<Provider>, builtinExists: bool, modelId: ModelId)
    : Result<Provider, EditError>
  {
    var id := Trim(modelId);
    var writable := Writable(provider, builtinExists);
    if id == [] then Err(EmptyId)
    else if writable.None? then Err(NoProvider)
    else
      var personal := OrEmpty(writable.value.personalModelIds);
      if id in inherited || id in personal then Err(AlreadyExists)
      else Ok(With(inherited, personal + [id], OrEmpty(writable.value.modelOrder)))
  }

  function RenamePersonalModel(inherited: seq<ModelId>, provider: Option<Provider>, currentId: ModelId, nextId: ModelId)
    : Result<Option<Provider>, EditError>
  {
    var current, next := Trim(currentId), Trim(nextId);
    if current == [] || next == [] then Err(EmptyId)
    else if current == next then Ok(provider)
    else if current in inherited then Err(Inherited)
    else if provider.None? || current !in OrEmpty(provider.value.personalModelIds) then Err(NotFound)
    else if next in OrEmpty(provider.value.personalModelIds) || next in inherited then Err(AlreadyExists)
    else
      Ok(Some(With(inherited, Renamed(OrEmpty(provider.value.personalModelIds), current, next),
                   Renamed(OrEmpty(provider.value.modelOrder), current, next))))
  }

  function DeletePersonalModel(inherited: seq<ModelId>, provider: Option<Provider>, modelId: ModelId)
    : Result<Provider, EditError>
  {
    var id := Trim(modelId);
    if id == [] then Err(EmptyId)
    else if id in inherited then Err(Inherited)
    else if provider.None? || id !in OrEmpty(provider.value.personalModelIds) then Err(NotFound)
    else
      Ok(With(inherited, Without(OrEmpty(provider.value.personalModelIds), {id}), OrEmpty(provider.value.modelOrder)))
  }

  function ReorderPersonalModels(inherited: seq<ModelId>, provider: Option<Provider>, builtinExists: bool,
                                 modelIds: seq<ModelId>)
    : Result<Provider, EditError>
  {
    var writable := Writable(provider, builtinExists);
    if writable.None? then Err(NoProvider)
    else
      Ok(writable.value.(modelOrder := Some(Ordered(inherited, OrEmpty(writable.value.personalModelIds), modelIds))))
  }

  // ---------- when they succeed ----------

  /** Edits succeed exactly for ids that are not blank: adding and renaming need an id that is not listed
      yet, renaming to another id and deleting one of a personal model that is not inherited as well, and
      adding and reordering a provider with an overlay or a built-in configuration. */
  lemma EditsSucceed(inherited: seq<ModelId>, provider: Option<Provider>, builtinExists: bool, modelId: ModelId,
                     nextId: ModelId, modelIds: seq<ModelId>)
    ensures
      var id, next := Trim(modelId), Trim(nextId);
      var known := provider.Some? || builtinExists;
      var listed := OrderOf(inherited, if provider.Some? then provider.value else Provider(None, None));
      var personal := provider.Some? && provider.value.personalModelIds.Some?
                      && id in provider.value.personalModelIds.value;
      && (AddPersonalModel(inherited, provider, builtinExists, modelId).Ok? <==> id != [] && known && id !in listed)
      && (DeletePersonalModel(inherited, provider, modelId).Ok? <==> id != [] && personal && id !in inherited)
      && (RenamePersonalModel(inherited, provider, modelId, nextId).Ok? <==>
            id != [] && next != [] && (id == next || (personal && id !in inherited && next !in listed)))
      && (ReorderPersonalModels(inherited, provider, builtinExists, modelIds).Ok? <==> known)
  {
    hide Ordered, Trim;
    var p := if provider.Some? then provider.value else Provider(None, None);
    var listed := OrderOf(inherited, p);
    OrderedMembers(inherited, OrEmpty(p.personalModelIds), OrEmpty(p.modelOrder));
    forall id
      ensures id in listed <==> id in inherited || id in OrEmpty(p.personalModelIds)
    {
      assert id in listed <==> id in Ids(listed);
      assert id in inherited <==> id in Ids(inherited);
    }
  }

  // ---------- what they do to the order ----------

  /** Adding a model puts it somewhere and leaves the order of all others unchanged. */
  lemma AddKeepsOrder(inherited: seq<ModelId>, provider: Option<Provider>, builtinExists: bool, modelId: ModelId)
    requires AddPersonalModel(inherited, provider, builtinExists, modelId).Ok?
    ensures
      var before := OrderOf(inherited, Writable(provider, builtinExists).value);
      var after := OrderOf(inherited, AddPersonalModel(inherited, provider, builtinExists, modelId).value);
      var id := Trim(modelId);
      id !in before && id in after && Without(after, {id}) == before
  {
    hide Ordered, Trim, Without;
    var id := Trim(modelId);
    var p := Writable(provider, builtinExists).value;
    var personal, order := OrEmpty(p.personalModelIds), OrEmpty(p.modelOrder);
    OrderOfWith(inherited, personal + [id], order);
    OrderedWithoutOne(inherited, personal + [id], order, id);
    WithoutLast(personal, id);
    OrderedMembers(inherited, personal, order);
    OrderedMembers(inherited, personal + [id], order);
    var before, after := Ordered(inherited, personal, order), Ordered(inherited, personal + [id], order);
    assert id in before <==> id in Ids(before);
    assert id in personal + [id] && id in Ids(personal + [id]);
    assert id in Ids(after);
  }

  lemma {:induction false} WithoutLast(s: seq<ModelId>, id: ModelId)
    requires id !in s
    ensures Without(s + [id], {id}) == s
    decreases |s|
  {
    if s == [] {
      assert [] + [id] == [id];
    } else {
      assert (s + [id])[0] == s[0] && (s + [id])[1..] == s[1..] + [id];
      WithoutLast(s[1..], id);
    }
  }

  /** Reordering lists exactly the same models, the mentioned ones in the order asked for. */
  lemma ReorderAsRequested(inherited: seq<ModelId>, provider: Option<Provider>, builtinExists: bool,
                           modelIds: seq<ModelId>)
    requires ReorderPersonalModels(inherited, provider, builtinExists, modelIds).Ok?
    ensures
      var before := OrderOf(inherited, Writable(provider, builtinExists).value);
      var after := OrderOf(inherited, ReorderPersonalModels(inherited, provider, builtinExists, modelIds).value);
      && Distinct(after) && Ids(after) == Ids(before)
      && Keep(after, Ids(modelIds)) == Keep(Unique(modelIds), Ids(before))
  {
    var p := Writable(provider, builtinExists).value;
    var personal := OrEmpty(p.personalModelIds);
    OrderedIdempotent(inherited, personal, modelIds);
    OrderedMembers(inherited, personal, modelIds);
    OrderedMembers(inherited, personal, OrEmpty(p.modelOrder));
    OrderedAsRequested(inherited, personal, modelIds);
  }

  /** Deleting a model takes it out and leaves the order of all others unchanged. */
  lemma DeleteKeepsOrder(inherited: seq<ModelId>, provider: Option<Provider>, modelId: ModelId)
    requires DeletePersonalModel(inherited, provider, modelId).Ok?
    ensures
      OrderOf(inherited, DeletePersonalModel(inherited, provider, modelId).value)
      == Without(OrderOf(inherited, provider.value), {Trim(modelId)})
  {
    hide Ordered, Trim;
    var id := Trim(modelId);
    var personal, order := OrEmpty(provider.value.personalModelIds), OrEmpty(provider.value.modelOrder);
    OrderOfWith(inherited, Without(personal, {id}), order);
    OrderedWithoutOne(inherited, personal, order, id);
  }

  /** A caller's check before renaming: the new id is the old one, or the stored order does not mention it,
      or all that is listed ahead of the old id is mentioned before the new one or is an unmentioned
      inherited model. */
  predicate KeepsPosition(inherited: seq<ModelId>, p: Provider, currentId: ModelId, nextId: ModelId) {
    Trim(currentId) == Trim(nextId)
    || Undisturbed(inherited, OrEmpty(p.personalModelIds), OrEmpty(p.modelOrder), Trim(currentId), Trim(nextId))
  }

  /** Renaming keeps the position of the model, and with it the whole list, exactly then. */
  lemma RenameKeepsPosition(inherited: seq<ModelId>, p: Provider, currentId: ModelId, nextId: ModelId)
    requires RenamePersonalModel(inherited, Some(p), currentId, nextId).Ok?
    ensures
      OrderOf(inherited, RenamePersonalModel(inherited, Some(p), currentId, nextId).value.value)
      == Renamed(OrderOf(inherited, p), Trim(currentId), Trim(nextId))
      <==> KeepsPosition(inherited, p, currentId, nextId)
  {
    hide Ordered, Trim;
    var current, next := Trim(currentId), Trim(nextId);
    var personal, order := OrEmpty(p.personalModelIds), OrEmpty(p.modelOrder);
    if current == next {
      RenamedSame(OrderOf(inherited, p), current);
    } else {
      OrderOfWith(inherited, Renamed(personal, current, next), Renamed(order, current, next));
      RenamedStays(inherited, personal, order, current, next);
    }
  }

  /** Wherever the renamed model goes, all others keep their order. */
  lemma RenameKeepsOthers(inherited: seq<ModelId>, p: Provider, currentId: ModelId, nextId: ModelId)
    requires RenamePersonalModel(inherited, Some(p), currentId, nextId).Ok?
    ensures
      var after := OrderOf(inherited, RenamePersonalModel(inherited, Some(p), currentId, nextId).value.value);
      Without(after, {Trim(nextId)}) == Without(OrderOf(inherited, p), {Trim(currentId)})
  {
    hide Ordered, Trim;
    var current, next := Trim(currentId), Trim(nextId);
    var personal, order := OrEmpty(p.personalModelIds), OrEmpty(p.modelOrder);
    if current != next {
      OrderOfWith(inherited, Renamed(personal, current, next), Renamed(order, current, next));
      OthersStay(inherited, personal, order, current, next);
    }
  }

  lemma {:induction false} RenamedSame(s: seq<ModelId>, id: ModelId)
    ensures Renamed(s, id, id) == s
  {
    if s != [] { RenamedSame(s[1..], id); }
  }

  /** A stale mention of the new id moves the renamed model: with personal models a, b and the stored
      order c, a, b, renaming b to c lists c first. */
  lemma StaleMentionMoves(a: ModelId, b: ModelId, c: ModelId)
    requires a != b && b != c && a != c && Trim(b) == b != [] && Trim(c) == c != []
    ensures
      var p := Provider(Some([a, b]), Some([c, a, b]));
      var renamed := RenamePersonalModel([], Some(p), b, c);
      OrderOf([], p) == [a, b] && renamed.Ok? && OrderOf([], renamed.value.value) == [c, a]
  {
    hide Ordered, Trim;
    RenamedLast(a, b, c);
    RequestedTwo(a, b, c);
    RequestedAgain(a, c);
    RenameToStale([a, b], [c, a, b], b, c);
  }

  /** What a rename stores when the new id is free. */
  lemma RenameToStale(personal: seq<ModelId>, order: seq<ModelId>, current: ModelId, next: ModelId)
    requires current in personal && next !in personal && Trim(current) == current != [] && Trim(next) == next != []
    ensures
      var renamed := RenamePersonalModel([], Some(Provider(Some(personal), Some(order))), current, next);
      && renamed.Ok?
      && OrderOf([], renamed.value.value)
         == Ordered([], Renamed(personal, current, next), Renamed(order, current, next))
  {
    hide Ordered, Renamed, Trim;
    OrderOfWith([], Renamed(personal, current, next), Renamed(order, current, next));
  }
}
