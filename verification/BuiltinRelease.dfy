/** The built-in release files: a bundled one per installation, and one active file all processes share
    and rewrite under its lock. */
module BuiltinRelease {
  import opened Wrappers

  /** `content` stands for the serialized release; equal content means equal releases. */
  datatype Release = Release(revision: nat, content: seq<int>)

  /** What reading a file gives. */
  datatype Candidate = Missing | Invalid | Valid(release: Release)

  datatype ApplyResult = Updated | Unchanged | Stale

  datatype ReleaseError = NoRelease | SameRevisionConflict

  function Newer(a: Release, b: Release): Release {
    if b.revision > a.revision then b else a
  }

  /** The newer of the valid candidates; at equal revisions, and so on a conflict, the bundled one. */
  function SelectReleaseCandidate(bundled: Candidate, active: Candidate): (r: Result<Release, ReleaseError>)
    ensures r.Ok? <==> bundled.Valid? || active.Valid?
    ensures r.Ok? ==> Valid(r.value) == bundled || Valid(r.value) == active
    ensures r.Ok? && bundled.Valid? ==> bundled.release.revision <= r.value.revision
    ensures r.Ok? && active.Valid? ==> active.release.revision <= r.value.revision
    ensures bundled.Valid? && active.Valid? && bundled.release.revision == active.release.revision ==>
              r == Ok(bundled.release)
  {
    if bundled.Valid? && active.Valid? && bundled.release.revision == active.release.revision
       && bundled.release.content != active.release.content
    then Ok(bundled.release)
    else
      match (bundled, active)
      case (Valid(b), Valid(a)) => Ok(Newer(b, a))
      case (Valid(b), _) => Ok(b)
      case (_, Valid(a)) => Ok(a)
      case _ => Err(NoRelease)
  }

  /** The active file after reading under the lock: the selected release, if there is one. */
  function Materialized(bundled: Candidate, active: Candidate): Candidate {
    match SelectReleaseCandidate(bundled, active)
    case Ok(r) => Valid(r)
    case Err(_) => active
  }

  /** What applying a downloaded release answers. */
  function Verdict(current: Release, release: Release): Result<ApplyResult, ReleaseError> {
    if release.revision < current.revision then Ok(Stale)
    else if release.revision == current.revision then
      if release.content == current.content then Ok(Unchanged) else Err(SameRevisionConflict)
    else Ok(Updated)
  }

  /** The active file and the answer after applying a downloaded release under the lock. */
  function Applied(bundled: Candidate, active: Candidate, release: Release)
    : (Candidate, Result<ApplyResult, ReleaseError>)
  {
    match SelectReleaseCandidate(bundled, active)
    case Err(e) => (active, Err(e))
    case Ok(current) =>
      var verdict := Verdict(current, release);
      (if verdict == Ok(Updated) then Valid(release) else Valid(current), verdict)
  }

  /** `after` holds a release at least as new as the one `before` holds. */
  predicate AtLeast(before: Candidate, after: Candidate) {
    before.Valid? ==> after.Valid? && before.release.revision <= after.release.revision
  }

  /** Applying never lowers the active revision.  "Updated" is answered exactly when the release is above
      everything there was, and then it is the active one; "stale" exactly when something was above it;
      without a release to start from there is an error; and at the highest revision there was the content
      decides.  Any answer but "updated" leaves what reading alone would have left. */
  lemma ApplyRaises(bundled: Candidate, active: Candidate, release: Release)
    ensures
      var (after, answer) := Applied(bundled, active, release);
      && AtLeast(active, after) && AtLeast(active, Materialized(bundled, active))
      && (answer == Err(NoRelease) <==> !active.Valid? && !bundled.Valid?)
      && (answer == Ok(Updated) <==>
            && (active.Valid? || bundled.Valid?)
            && (active.Valid? ==> active.release.revision < release.revision)
            && (bundled.Valid? ==> bundled.release.revision < release.revision))
      && (answer == Ok(Updated) ==> after == Valid(release))
      && (answer == Ok(Stale) <==>
            || (active.Valid? && release.revision < active.release.revision)
            || (bundled.Valid? && release.revision < bundled.release.revision))
      && (answer == Ok(Unchanged) || answer == Err(SameRevisionConflict) ==>
            && after.Valid? && after.release.revision == release.revision
            && (answer == Ok(Unchanged) <==> after.release.content == release.content))
      && (answer != Ok(Updated) ==> after == Materialized(bundled, active))
  {
  }

  /** The active file. */
  class ActiveFile {
    var content: Candidate

    constructor (content: Candidate)
      ensures this.content == content
    {
      this.content := content;
    }
  }

  /** One process's source over the shared active file. */
  class ConfigSource {
    const bundled: Candidate
    const active: ActiveFile
    var observed: Option<Release>   // observedSignature

    constructor (bundled: Candidate, active: ActiveFile)
      ensures this.bundled == bundled && this.active == active && observed == None
    {
      this.bundled, this.active, observed := bundled, active, None;
    }

    method ReadAndMaterialize() returns (r: Result<Release, ReleaseError>)
      modifies active
      ensures r == SelectReleaseCandidate(bundled, old(active.content))
      ensures active.content == Materialized(bundled, old(active.content))
    {
      r := SelectReleaseCandidate(bundled, active.content);
      if r.Ok? && active.content != Valid(r.value) { active.content := Valid(r.value); }
    }

    /** Reading never fails because of the active file: only the bundled release then counts. */
    method Read(lockFails: bool) returns (r: Result<Release, ReleaseError>)
      modifies this, active
      ensures lockFails ==> active.content == old(active.content) && r == SelectReleaseCandidate(bundled, Missing)
      ensures !lockFails ==> active.content == Materialized(bundled, old(active.content))
      ensures !lockFails && (bundled.Valid? || old(active.content).Valid?) ==>
                r == SelectReleaseCandidate(bundled, old(active.content))
      ensures bundled.Valid? ==> r.Ok?
      ensures observed == if old(observed).None? && r.Ok? then Some(r.value) else old(observed)
    {
      if lockFails {
        r := SelectReleaseCandidate(bundled, Missing);
      } else {
        r := ReadAndMaterialize();
        if r.Err? { r := SelectReleaseCandidate(bundled, Missing); }
      }
      if observed.None? && r.Ok? { observed := Some(r.value); }
    }

    method ApplyRemoteRelease(release: Release) returns (r: Result<ApplyResult, ReleaseError>)
      modifies this, active
      ensures (active.content, r) == Applied(bundled, old(active.content), release)
      ensures observed == if r == Ok(Updated) then Some(release) else old(observed)
    {
      var current := ReadAndMaterialize();
      if current.Err? { return Err(current.error); }
      if release.revision < current.value.revision { return Ok(Stale); }
      if release.revision == current.value.revision {
        if release.content == current.value.content { return Ok(Unchanged); }
        return Err(SameRevisionConflict);
      }
      active.content := Valid(release);
      observed := Some(release);
      return Ok(Updated);
    }
  }
}
