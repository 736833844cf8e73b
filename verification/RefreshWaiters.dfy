/** Requests waiting for a refresh round, and how a round settles them: shared by the two services that
    keep a snapshot fresh. */
module RefreshWaiters {
  import opened Wrappers

  /** Request number `generation`; `askedAt` and `begunAt` are moments of the service's own clock. */
  datatype Waiter = Waiter(generation: nat, askedAt: nat)

  datatype Round = Round(generation: nat, begunAt: nat)

  /** How a request ended: in a round, or, without one, because the service was disposed. */
  datatype Settlement<Outcome> = Settlement(waiter: Waiter, outcome: Outcome, begunAt: Option<nat>)

  function Upto(ws: seq<Waiter>, generation: nat): seq<Waiter> {
    if ws == [] then [] else (if ws[0].generation <= generation then [ws[0]] else []) + Upto(ws[1..], generation)
  }

  function Beyond(ws: seq<Waiter>, generation: nat): seq<Waiter> {
    if ws == [] then [] else (if ws[0].generation <= generation then [] else [ws[0]]) + Beyond(ws[1..], generation)
  }

  function Settlements<Outcome>(ws: seq<Waiter>, outcome: Outcome, begunAt: Option<nat>): seq<Settlement<Outcome>> {
    seq(|ws|, i requires 0 <= i < |ws| => Settlement(ws[i], outcome, begunAt))
  }

  /** Taking the first waiter. */
  lemma UptoBeyond(ws: seq<Waiter>, generation: nat, done: seq<Waiter>, remaining: seq<Waiter>)
    requires ws != []
    ensures
      if ws[0].generation <= generation then
        && done + Upto(ws, generation) == (done + [ws[0]]) + Upto(ws[1..], generation)
        && Beyond(ws, generation) == Beyond(ws[1..], generation)
      else
        && Upto(ws, generation) == Upto(ws[1..], generation)
        && remaining + Beyond(ws, generation) == (remaining + [ws[0]]) + Beyond(ws[1..], generation)
  {
  }

  /** The loop of resolveRefreshWaiters and rejectRefreshWaiters: whom to settle, and who stays. */
  method Partition(waiters: seq<Waiter>, generation: nat) returns (done: seq<Waiter>, remaining: seq<Waiter>)
    ensures done == Upto(waiters, generation) && remaining == Beyond(waiters, generation)
  {
    done, remaining := [], [];
    var rest := waiters;
    while rest != []
      invariant remaining + Beyond(rest, generation) == Beyond(waiters, generation)
      invariant done + Upto(rest, generation) == Upto(waiters, generation)
      decreases |rest|
    {
      var waiter := rest[0];
      UptoBeyond(rest, generation, done, remaining);
      if waiter.generation <= generation {
        done := done + [waiter];
      } else {
        remaining := remaining + [waiter];
      }
      rest := rest[1..];
    }
  }

  /** Requests are settled in the order they were made: the settled ones and the waiting ones together
      are exactly the requests 1, 2, ... requested. */
  ghost predicate InOrder<Outcome>(settled: seq<Settlement<Outcome>>, waiters: seq<Waiter>, requested: nat) {
    && |settled| + |waiters| == requested
    && (forall i :: 0 <= i < |settled| ==> settled[i].waiter.generation == i + 1)
    && (forall i :: 0 <= i < |waiters| ==> waiters[i].generation == |settled| + i + 1)
  }

  /** A waiter the round takes up was there when it began. */
  ghost predicate Sees(round: Round, w: Waiter) {
    w.generation <= round.generation ==> w.askedAt < round.begunAt
  }

  function Least(a: int, b: int): int { if a < b then a else b }

  /** Of consecutive waiters, those up to a generation are a prefix. */
  lemma {:induction false} Split(ws: seq<Waiter>, first: nat, generation: nat)
    requires forall i :: 0 <= i < |ws| ==> ws[i].generation == first + i + 1
    ensures
      var k := if generation <= first then 0 else Least(generation - first, |ws|);
      Upto(ws, generation) == ws[..k] && Beyond(ws, generation) == ws[k..]
    decreases |ws|
  {
    if ws != [] {
      Split(ws[1..], first + 1, generation);
      assert ws == [ws[0]] + ws[1..];
    }
  }

  lemma SettledInOrder<Outcome>(settled: seq<Settlement<Outcome>>, waiters: seq<Waiter>, requested: nat,
                                done: seq<Waiter>, rest: seq<Waiter>, outcome: Outcome, begunAt: Option<nat>)
    requires InOrder(settled, waiters, requested) && waiters == done + rest
    ensures InOrder(settled + Settlements(done, outcome, begunAt), rest, requested)
  {
    var more := settled + Settlements(done, outcome, begunAt);
    assert forall i :: 0 <= i < |done| ==> waiters[i] == done[i];
    assert forall i :: 0 <= i < |rest| ==> waiters[|done| + i] == rest[i];
    assert forall i :: |settled| <= i < |more| ==> more[i].waiter == done[i - |settled|];
  }

  lemma OnlyOne(ws: seq<Waiter>, generation: nat)
    requires |ws| == 1 && ws[0].generation <= generation
    ensures Upto(ws, generation) == ws
  {
  }
}
