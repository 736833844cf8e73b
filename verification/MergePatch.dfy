/** Merge patches: the merge of section 2 of RFC 7396, the paths a patch writes, and when patches clash. */
module MergePatch {
  import opened Wrappers
  import opened CelText
  import opened JsonValues

  type Fields = map<Text, Json>

  type Path = seq<Text>

  datatype NamedPatch = NamedPatch(option: Text, patch: Fields)

  datatype OwnedPath = OwnedPath(option: Text, path: Path)

  datatype Conflict = Conflict(path: Path, owner: Text, option: Text)

  // ---------- the reference ----------

  function FieldsOf(v: Option<Json>): Fields {
    if v.Some? && v.value.Obj? then v.value.fields else map[]
  }

  function Get(fields: Fields, k: Text): Option<Json> {
    if k in fields then Some(fields[k]) else None
  }

  /** MergePatch of section 2 of RFC 7396. */
  function Merge(target: Option<Json>, patch: Json): Json
    decreases patch, 1
  {
    if patch.Obj? then Obj(MergeFields(FieldsOf(target), patch.fields)) else patch
  }

  predicate Kept(target: Fields, patch: Fields, k: Text) {
    if k in patch then !patch[k].Null? else k in target
  }

  /** Its object case: null removes a member, anything else is merged into it. */
  function MergeFields(target: Fields, patch: Fields): (r: Fields)
    ensures forall k :: k in r <==> Kept(target, patch, k)
    decreases Obj(patch), 0
  {
    map k | k in target.Keys + patch.Keys && Kept(target, patch, k) ::
      if k in patch then Merge(Get(target, k), patch[k]) else target[k]
  }

  function Applied(body: Fields, ps: seq<NamedPatch>): Fields
    decreases |ps|
  {
    if ps == [] then body else Applied(MergeFields(body, ps[0].patch), ps[1..])
  }

  // ---------- paths ----------

  predicate IsBranch(v: Json) { v.Obj? && v.fields != map[] }

  /** The patch writes at the end of this path: everything on the way is a non-empty object, and the
      value there is not. */
  predicate Writes(patch: Fields, p: Path)
    decreases |p|
  {
    p != [] && p[0] in patch &&
    if IsBranch(patch[p[0]]) then Writes(patch[p[0]].fields, p[1..]) else |p| == 1
  }

  /** One path is a prefix of the other. */
  predicate Overlap(p: Path, q: Path) { p <= q || q <= p }

  ghost predicate Meet(a: Fields, b: Fields, p: Path, q: Path) {
    Writes(a, p) && Writes(b, q) && Overlap(p, q)
  }

  ghost predicate Clash(a: Fields, b: Fields) {
    exists p, q :: Meet(a, b, p, q)
  }

  ghost predicate Compatible(ps: seq<NamedPatch>) {
    forall i: nat, j: nat :: i < j < |ps| ==> !Clash(ps[i].patch, ps[j].patch)
  }

  /** What stands at a path, if anything. */
  function Read(fields: Fields, p: Path): Option<Json>
    decreases |p|
  {
    if p == [] then Some(Obj(fields))
    else if p[0] !in fields then None
    else if |p| == 1 then Some(fields[p[0]])
    else if fields[p[0]].Obj? then Read(fields[p[0]].fields, p[1..])
    else None
  }
}
