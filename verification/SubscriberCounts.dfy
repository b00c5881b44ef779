/**
 Concurrent-subscriber accounting (rust/konfig/quota.rs, `SubscriberCounts`).

 Admission is one atomic step under the entry lock.  Releasing a stream is two:
 a decrement, and later a removal of the entry if it is still zero.  Any number of
 admissions and releases of other streams may fall in between.
 */
module SubscriberCounts {
  import opened Common

  datatype Admission = Allowed(current: nat, limit: nat, overBudget: bool) | Denied(current: nat, limit: nat)

  function Count(inner: map<string, nat>, identity: string): (n: nat) {
    if identity in inner then inner[identity] else 0
  }

  // ── The shared map, in place ───────────────────────────────────────────────

  class Counts {
    var inner: map<string, nat>

    constructor ()
      ensures inner == map[]
    {
      inner := map[];
    }

    /** A refusal leaves the map as it was, although the entry is created first. */
    method TryIncrement(identity: string, limit: nat) returns (r: Result<nat, nat>)
      modifies this
      ensures r.Err? <==> limit != 0 && limit <= Count(old(inner), identity)
      ensures r.Err? ==> r.error == Count(old(inner), identity) && inner == old(inner)
      ensures r.Ok? ==> r.value == Count(old(inner), identity) + 1 && inner == old(inner)[identity := r.value]
    {
      if identity !in inner {
        inner := inner[identity := 0];
      }
      if limit != 0 && inner[identity] >= limit {
        return Err(inner[identity]);
      }
      inner := inner[identity := inner[identity] + 1];
      r := Ok(inner[identity]);
    }

    method IncrementUnchecked(identity: string) returns (n: nat)
      modifies this
      ensures n == Count(old(inner), identity) + 1 && inner == old(inner)[identity := n]
    {
      if identity !in inner {
        inner := inner[identity := 0];
      }
      inner := inner[identity := inner[identity] + 1];
      n := inner[identity];
    }

    method Admit(identity: string, mode: Mode, limit: nat) returns (a: Admission)
      modifies this
      ensures a == Decide(old(inner), identity, mode, limit)
      ensures inner == if a.Denied? then old(inner) else old(inner)[identity := Count(old(inner), identity) + 1]
    {
      match mode {
        case Enforce =>
          var r := TryIncrement(identity, limit);
          match r {
            case Ok(current) => a := Allowed(current, limit, false);
            case Err(current) => a := Denied(current, limit);
          }
        case Permissive =>
          var current := IncrementUnchecked(identity);
          a := Allowed(current, limit, limit != 0 && current > limit);
        case Disabled =>
          var current := IncrementUnchecked(identity);
          a := Allowed(current, limit, false);
      }
    }

    /** First half of a release: a saturating decrement under the entry lock. */
    method Decrement(identity: string) returns (nowZero: bool)
      modifies this
      ensures inner == Decremented(old(inner), identity)
      ensures nowZero <==> identity in inner && inner[identity] == 0
    {
      nowZero := false;
      if identity in inner {
        var v := inner[identity];
        v := if v > 0 then v - 1 else 0;
        inner := inner[identity := v];
        nowZero := v == 0;
      }
    }

    /** Second half: drop the entry, but only if it is still zero. */
    method RemoveIfZero(identity: string)
      modifies this
      ensures inner == Reaped(old(inner), identity)
    {
      if identity in inner && inner[identity] == 0 {
        inner := inner - {identity};
      }
    }
  }

  /** Enforce admits up to the limit; the other modes always admit, and Permissive
      reports what Enforce would have refused. */
  function Decide(inner: map<string, nat>, identity: string, mode: Mode, limit: nat): (a: Admission) {
    var current := Count(inner, identity);
    if mode == Enforce && limit != 0 && limit <= current then Denied(current, limit)
    else Allowed(current + 1, limit, mode == Permissive && limit != 0 && limit <= current)
  }

  function Decremented(inner: map<string, nat>, identity: string): (r: map<string, nat>) {
    if identity !in inner then inner
    else inner[identity := if inner[identity] > 0 then inner[identity] - 1 else 0]
  }

  function Reaped(inner: map<string, nat>, identity: string): (r: map<string, nat>) {
    if identity in inner && inner[identity] == 0 then inner - {identity} else inner
  }

  // ── The protocol ───────────────────────────────────────────────────────────

  /** The shared map, the guards still held (one per admitted stream not yet
      decremented), and the releases that saw zero and have still to reap. */
  datatype State = State(counts: map<string, nat>, live: multiset<string>, reaping: multiset<string>)

  datatype Step =
    | Admit(id: string, mode: Mode, limit: nat)
    | Decrement(id: string)
    | Reap(id: string)

  predicate Enabled(s: State, step: Step) {
    match step
    case Admit(_, _, _) => true
    case Decrement(id) => id in s.live
    case Reap(id) => id in s.reaping
  }

  function Next(s: State, step: Step): (s': State) {
    match step
    case Admit(id, mode, limit) =>
      if Decide(s.counts, id, mode, limit).Denied? then s
      else State(s.counts[id := Count(s.counts, id) + 1], s.live + multiset{id}, s.reaping)
    case Decrement(id) =>
      var counts := Decremented(s.counts, id);
      var nowZero := id in counts && counts[id] == 0;
      State(counts, s.live - multiset{id}, if nowZero then s.reaping + multiset{id} else s.reaping)
    case Reap(id) =>
      State(Reaped(s.counts, id), s.live, s.reaping - multiset{id})
  }

  const START := State(map[], multiset{}, multiset{})

  ghost function Run(steps: seq<Step>): (s: State) {
    if steps == [] then START else Next(Run(steps[..|steps| - 1]), steps[|steps| - 1])
  }

  ghost predicate Legal(steps: seq<Step>) {
    steps == [] || (Legal(steps[..|steps| - 1]) && Enabled(Run(steps[..|steps| - 1]), steps[|steps| - 1]))
  }

  /** Every count is the number of guards held, and an entry at zero is still
      waiting for the release that will remove it. */
  ghost predicate Accounted(s: State) {
    && (forall id :: Count(s.counts, id) == s.live[id])
    && (forall id :: id in s.counts && s.counts[id] == 0 ==> id in s.reaping)
  }

  lemma StepKeepsAccount(s: State, step: Step)
    requires Accounted(s) && Enabled(s, step)
    ensures Accounted(Next(s, step))
  {
    var s' := Next(s, step);
    forall id
      ensures Count(s'.counts, id) == s'.live[id]
      ensures id in s'.counts && s'.counts[id] == 0 ==> id in s'.reaping
    {
      assert Count(s.counts, id) == s.live[id];
      assert Count(s.counts, step.id) == s.live[step.id];
    }
  }

  /** In every interleaving the account is exact. */
  lemma {:induction false} RunsAreAccounted(steps: seq<Step>)
    requires Legal(steps)
    ensures Accounted(Run(steps))
  {
    if steps != [] {
      RunsAreAccounted(steps[..|steps| - 1]);
      StepKeepsAccount(Run(steps[..|steps| - 1]), steps[|steps| - 1]);
    }
  }

  /** A release always finds its entry at one or more: the saturating decrement
      never saturates and the missing-entry branch is never taken. */
  lemma DecrementNeverSaturates(steps: seq<Step>, id: string)
    requires Legal(steps) && Enabled(Run(steps), Decrement(id))
    ensures id in Run(steps).counts && Run(steps).counts[id] > 0
  {
    RunsAreAccounted(steps);
    assert Count(Run(steps).counts, id) == Run(steps).live[id];
  }

  /** After any run an admission is decided by the guards held alone.  Enforce refuses
      exactly when the tenant holds its limit of them, and a refusal changes nothing;
      Permissive reports exactly where Enforce would refuse; no other answer is given. */
  lemma RefusalIsExact(steps: seq<Step>, id: string, limit: nat)
    requires Legal(steps)
    ensures var held := Run(steps).live[id];
            var full := limit != 0 && held >= limit;
            && Decide(Run(steps).counts, id, Enforce, limit) ==
               (if full then Denied(held, limit) else Allowed(held + 1, limit, false))
            && Decide(Run(steps).counts, id, Permissive, limit) == Allowed(held + 1, limit, full)
            && Decide(Run(steps).counts, id, Disabled, limit) == Allowed(held + 1, limit, false)
            && (full ==> Next(Run(steps), Admit(id, Enforce, limit)) == Run(steps))
            && (!full ==> Next(Run(steps), Admit(id, Enforce, limit)).live == Run(steps).live + multiset{id})
  {
    RunsAreAccounted(steps);
    assert Count(Run(steps).counts, id) == Run(steps).live[id];
  }

  /** While every admission of a tenant is enforced with a limit of at most `most`,
      the tenant never holds more than `most` guards. */
  lemma {:induction false} EnforcedLimitHolds(steps: seq<Step>, id: string, most: nat)
    requires Legal(steps)
    requires forall i :: 0 <= i < |steps| && steps[i].Admit? && steps[i].id == id ==>
                           steps[i].mode == Enforce && 0 < steps[i].limit <= most
    ensures Run(steps).live[id] <= most
  {
    if steps != [] {
      var n := |steps| - 1;
      EnforcedLimitHolds(steps[..n], id, most);
      RunsAreAccounted(steps[..n]);
      assert Count(Run(steps[..n]).counts, id) == Run(steps[..n]).live[id];
    }
  }

  /** Once no release is half done, the map holds exactly the tenants with guards:
      the reap removes every idle tenant and no other. */
  lemma QuiescentMapIsExact(steps: seq<Step>)
    requires Legal(steps) && Run(steps).reaping == multiset{}
    ensures forall id :: id in Run(steps).counts <==> id in Run(steps).live
  {
    RunsAreAccounted(steps);
    var s := Run(steps);
    forall id ensures id in s.counts <==> id in s.live {
      assert Count(s.counts, id) == s.live[id];
    }
  }
}
