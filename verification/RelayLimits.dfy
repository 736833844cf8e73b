/** The limits an endpoint is built with, and the byte size of a batch. */
module RelayLimits {
  import opened Wrappers
  import opened RelayFrames

  const SATURATION_HIGH_WATER_MARK_BYTES: int := 1024 * 1024
  const SATURATION_LOW_WATER_MARK_BYTES: int := 256 * 1024
  const REPLAY_BUFFER_MAX_BYTES: int := 8 * 1024 * 1024
  const MAX_PHYSICAL_FRAME_BYTES: int := 1024 * 1024
  const REPLAY_BUFFER_GRACE_MS: int := 45_000
  const ASSEMBLY_TIMEOUT_MS: int := 30_000
  const MAX_SAFE_INTEGER: int := 0x1F_FFFF_FFFF_FFFF

  datatype LimitOptions = LimitOptions(
    highWater: Option<int>, lowWater: Option<int>, replayCap: Option<int>, graceMs: Option<int>,
    assemblyTimeoutMs: Option<int>)

  datatype Limits = Limits(highWater: nat, lowWater: nat, replayCap: nat, graceMs: nat, assemblyTimeoutMs: nat)

  datatype LimitError = NotPositive | Negative | LowAboveHigh

  function OrDefault(option: Option<int>, default: int): int {
    if option.Some? then option.value else default
  }

  predicate PositiveSafe(n: int) { 0 < n <= MAX_SAFE_INTEGER }

  /** An option that may only lower its default. */
  predicate Lowers(option: Option<int>, default: int, limit: nat) {
    limit <= default && limit <= OrDefault(option, default) && (limit == default || Some(limit) == option)
  }

  function Min(a: int, b: int): int { if a < b then a else b }

  /** Accepted limits are exactly the ones the accounting rests on. */
  function ResolveLimits(o: LimitOptions): (r: Result<Limits, LimitError>)
    ensures r.Ok? <==>
              && PositiveSafe(OrDefault(o.highWater, SATURATION_HIGH_WATER_MARK_BYTES))
              && 0 <= OrDefault(o.lowWater, SATURATION_LOW_WATER_MARK_BYTES)
                   <= OrDefault(o.highWater, SATURATION_HIGH_WATER_MARK_BYTES)
              && PositiveSafe(OrDefault(o.replayCap, REPLAY_BUFFER_MAX_BYTES))
              && PositiveSafe(OrDefault(o.graceMs, REPLAY_BUFFER_GRACE_MS))
              && PositiveSafe(OrDefault(o.assemblyTimeoutMs, ASSEMBLY_TIMEOUT_MS))
    ensures r.Ok? ==>
              && 0 < r.value.highWater && r.value.lowWater <= r.value.highWater
              && r.value.highWater == OrDefault(o.highWater, SATURATION_HIGH_WATER_MARK_BYTES)
              && r.value.lowWater == OrDefault(o.lowWater, SATURATION_LOW_WATER_MARK_BYTES)
              && 0 < r.value.replayCap && Lowers(o.replayCap, REPLAY_BUFFER_MAX_BYTES, r.value.replayCap)
              && 0 < r.value.graceMs && Lowers(o.graceMs, REPLAY_BUFFER_GRACE_MS, r.value.graceMs)
              && 0 < r.value.assemblyTimeoutMs
              && Lowers(o.assemblyTimeoutMs, ASSEMBLY_TIMEOUT_MS, r.value.assemblyTimeoutMs)
  {
    var high := OrDefault(o.highWater, SATURATION_HIGH_WATER_MARK_BYTES);
    var low := OrDefault(o.lowWater, SATURATION_LOW_WATER_MARK_BYTES);
    var cap := OrDefault(o.replayCap, REPLAY_BUFFER_MAX_BYTES);
    var grace := OrDefault(o.graceMs, REPLAY_BUFFER_GRACE_MS);
    var timeout := OrDefault(o.assemblyTimeoutMs, ASSEMBLY_TIMEOUT_MS);
    if !PositiveSafe(high) then Err(NotPositive)
    else if low < 0 || low > MAX_SAFE_INTEGER then Err(Negative)
    else if low > high then Err(LowAboveHigh)
    else if !PositiveSafe(cap) || !PositiveSafe(grace) || !PositiveSafe(timeout) then Err(NotPositive)
    else
      Ok(Limits(high, low, Min(cap, REPLAY_BUFFER_MAX_BYTES), Min(grace, REPLAY_BUFFER_GRACE_MS),
                Min(timeout, ASSEMBLY_TIMEOUT_MS)))
  }

  function FrameSizes(frames: seq<Frame>, measure: Frame -> int): (total: int) {
    if frames == [] then 0 else FrameSizes(frames[..|frames| - 1], measure) + measure(frames[|frames| - 1])
  }

  predicate Measurable(frames: seq<Frame>, measure: Frame -> int) {
    forall f <- frames :: 0 < measure(f) <= MAX_PHYSICAL_FRAME_BYTES
  }

  /** None stands for the error raised on a frame of invalid size. */
  method MeasureBatch(frames: seq<Frame>, measure: Frame -> int) returns (total: Option<nat>)
    ensures total.Some? <==> Measurable(frames, measure)
    ensures total.Some? ==> total.value == FrameSizes(frames, measure) && total.value >= |frames|
  {
    var sum: nat := 0;
    for i := 0 to |frames|
      invariant Measurable(frames[..i], measure)
      invariant sum == FrameSizes(frames[..i], measure) && sum >= i
    {
      var size := measure(frames[i]);
      if size <= 0 || size > MAX_PHYSICAL_FRAME_BYTES { return None; }
      assert frames[..i + 1][..i] == frames[..i];
      assert frames[..i + 1] == frames[..i] + [frames[i]];
      sum := sum + size;
    }
    assert frames[..|frames|] == frames;
    return Some(sum);
  }
}
