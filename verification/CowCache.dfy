/**
 The copy-on-write cache (rust/konfig/cow_cache.rs).

 Writers take a lock, load the published map, edit a private copy and swap it in.
 Readers only load.  The first part gives the sequential meaning and the operations
 in place; the second part models writers and readers step by step and shows that
 every interleaving behaves like one atomic map.
 */
module CowCache {
  import opened Common

  /** A cached object; the payload is opaque. */
  datatype Snapshot = Snapshot(key: Target, payload: string, staleSince: Option<real>)

  datatype Mutation = Upsert(snap: Snapshot) | Remove(key: Target)

  type Cache = map<Target, Snapshot>

  // ── Sequential meaning ─────────────────────────────────────────────────────

  function Mutated(m: Cache, x: Mutation): (r: Cache) {
    match x
    case Upsert(snap) => m[snap.key := snap]
    case Remove(key) => m - {key}
  }

  function MutatedAll(m: Cache, xs: seq<Mutation>): (r: Cache)
    decreases |xs|
  {
    if xs == [] then m else MutatedAll(Mutated(m, xs[0]), xs[1..])
  }

  lemma {:induction false} MutatedAllConcat(m: Cache, xs: seq<Mutation>, ys: seq<Mutation>)
    ensures MutatedAll(m, xs + ys) == MutatedAll(MutatedAll(m, xs), ys)
    decreases |xs|
  {
    if xs == [] {
      assert xs + ys == ys;
    } else {
      assert (xs + ys)[1..] == xs[1..] + ys;
      MutatedAllConcat(Mutated(m, xs[0]), xs[1..], ys);
    }
  }

  function Stale(snap: Snapshot, now: real): (r: Snapshot) {
    snap.(staleSince := Some(now))
  }

  function AllStale(m: Cache, now: real): (r: Cache) {
    map k | k in m :: Stale(m[k], now)
  }

  /** `r` is `base` with its key and payload, stale since `mark` if there is one. */
  ghost predicate Kept(base: Snapshot, mark: Option<real>, r: Snapshot) {
    r.key == base.key && r.payload == base.payload && r.staleSince == if mark.Some? then mark else base.staleSince
  }

  /** Every entry is stored under its own namespace and name. */
  ghost predicate WellKeyed(m: Cache) {
    forall k :: k in m ==> m[k].key == k
  }

  function Lookup(m: Cache, key: Target): (r: Option<Snapshot>) {
    if key in m then Some(m[key]) else None
  }

  // ── The operations, in place ───────────────────────────────────────────────

  class ConfigCache {
    var inner: Cache
    /** Number of clone-and-swap operations so far. */
    var writes: nat

    constructor (seed: Cache)
      ensures inner == seed && writes == 0
    {
      inner, writes := seed, 0;
    }

    /** All snapshots of a namespace, each once, in no particular order. */
    method AllInNamespace(namespace: string) returns (out: seq<Snapshot>)
      requires WellKeyed(inner)
      ensures forall snap :: snap in out <==>
                               snap.key in inner && inner[snap.key] == snap && snap.key.namespace == namespace
      ensures forall i, j :: 0 <= i < j < |out| ==> out[i].key != out[j].key
    {
      out := [];
      var rest := inner.Keys;
      while rest != {}
        invariant rest <= inner.Keys
        invariant forall snap :: snap in out <==>
                                   && snap.key in inner && snap.key !in rest
                                   && inner[snap.key] == snap && snap.key.namespace == namespace
        invariant forall i, j :: 0 <= i < j < |out| ==> out[i].key != out[j].key
        decreases |rest|
      {
        var k :| k in rest;
        assert forall i :: 0 <= i < |out| ==> out[i] in out;
        if k.namespace == namespace {
          out := out + [inner[k]];
        }
        rest := rest - {k};
      }
    }

    method Update(snap: Snapshot)
      modifies this
      ensures inner == Mutated(old(inner), Upsert(snap)) && writes == old(writes) + 1
    {
      inner := inner[snap.key := snap];
      writes := writes + 1;
    }

    method Delete(key: Target)
      modifies this
      ensures inner == Mutated(old(inner), Remove(key)) && writes == old(writes) + 1
    {
      inner := inner - {key};
      writes := writes + 1;
    }

    method MarkAllStale(now: real)
      modifies this
      ensures inner == AllStale(old(inner), now) && writes == old(writes) + 1
      ensures inner.Keys == old(inner).Keys && forall k :: k in inner ==> Kept(old(inner)[k], Some(now), inner[k])
    {
      var next := inner;
      var rest := inner.Keys;
      while rest != {}
        invariant rest <= inner.Keys && inner == old(inner) && writes == old(writes)
        invariant next == map k | k in inner :: if k in rest then inner[k] else Stale(inner[k], now)
        decreases |rest|
      {
        var k :| k in rest;
        next := next[k := Stale(next[k], now)];
        rest := rest - {k};
      }
      assert next == AllStale(inner, now);
      inner := next;
      writes := writes + 1;
    }

    /** One clone and one swap for the whole batch; nothing at all for an empty one. */
    method ApplyBatch(xs: seq<Mutation>) returns (n: nat)
      modifies this
      ensures inner == MutatedAll(old(inner), xs) && n == |xs|
      ensures writes == old(writes) + if xs == [] then 0 else 1
    {
      if xs == [] { return 0; }
      var next := inner;
      for i := 0 to |xs|
        invariant inner == old(inner) && writes == old(writes)
        invariant MutatedAll(next, xs[i..]) == MutatedAll(inner, xs)
      {
        match xs[i] {
          case Upsert(snap) => next := next[snap.key := snap];
          case Remove(key) => next := next - {key};
        }
        assert xs[i..][1..] == xs[i + 1..];
      }
      inner := next;
      writes := writes + 1;
      n := |xs|;
    }
  }

  // ── Writers and readers, step by step ──────────────────────────────────────

  datatype Op = Edit(xs: seq<Mutation>) | MarkStale(now: real)

  /** The effect of a whole write. */
  function Committed(m: Cache, op: Op): (r: Cache) {
    match op
    case Edit(xs) => MutatedAll(m, xs)
    case MarkStale(now) => AllStale(m, now)
  }

  function Replay(m: Cache, log: seq<Op>): (r: Cache) {
    if log == [] then m else Committed(Replay(m, log[..|log| - 1]), log[|log| - 1])
  }

  /** One edit of the private copy. */
  datatype Touch = Mutate(x: Mutation) | StaleOne(key: Target, now: real)

  function Touched(m: Cache, t: Touch): (r: Cache) {
    match t
    case Mutate(x) => Mutated(m, x)
    case StaleOne(key, now) => if key in m then m[key := Stale(m[key], now)] else m
  }

  function TouchedAll(m: Cache, ts: seq<Touch>): (r: Cache)
    decreases |ts|
  {
    if ts == [] then m else TouchedAll(Touched(m, ts[0]), ts[1..])
  }

  /** What a writer that loaded `m` sets out to do.  Marking stale walks the map in
      any order, so any enumeration of its keys will do. */
  ghost predicate Plan(m: Cache, op: Op, ts: seq<Touch>) {
    match op
    case Edit(xs) => |ts| == |xs| && forall i :: 0 <= i < |xs| ==> ts[i] == Mutate(xs[i])
    case MarkStale(now) =>
      && (forall i :: 0 <= i < |ts| ==> ts[i].StaleOne? && ts[i].key in m && ts[i].now == now)
      && (forall k :: k in m ==> StaleOne(k, now) in ts)
  }

  /** Where a writer stands between taking the lock and releasing it. */
  datatype Progress = Locked(op: Op) | Working(op: Op, copy: Cache, todo: seq<Touch>) | Stored(op: Op)

  /** A load, with the number of writes committed when it happened. */
  datatype Read = Read(seen: Cache, after: nat)

  datatype State = State(published: Cache, lock: Option<nat>, writers: map<nat, Progress>,
                         log: seq<Op>, returned: seq<Op>, loads: seq<Read>)

  datatype Step =
    | Lock(w: nat, op: Op)
    | Load(w: nat, plan: seq<Touch>)
    | Work(w: nat)
    | Store(w: nat)
    | Unlock(w: nat)
    | Panic(w: nat)
    | Observe

  /** Any thread may move at any time, subject only to the mutex.  An empty batch returns
      before it takes the lock. */
  ghost predicate Enabled(s: State, step: Step) {
    match step
    case Lock(w, op) => s.lock == None && w !in s.writers && op != Edit([])
    case Load(w, plan) => w in s.writers && s.writers[w].Locked? && Plan(s.published, s.writers[w].op, plan)
    case Work(w) => w in s.writers && s.writers[w].Working? && s.writers[w].todo != []
    case Store(w) => w in s.writers && s.writers[w].Working? && s.writers[w].todo == []
    case Unlock(w) => w in s.writers && s.writers[w].Stored?
    case Panic(w) => w in s.writers && !s.writers[w].Stored?
    case Observe => true
  }

  ghost function Next(s: State, step: Step): (s': State)
    requires Enabled(s, step)
  {
    match step
    case Lock(w, op) => s.(lock := Some(w), writers := s.writers[w := Locked(op)])
    case Load(w, plan) => s.(writers := s.writers[w := Working(s.writers[w].op, s.published, plan)])
    case Work(w) =>
      var p := s.writers[w];
      s.(writers := s.writers[w := Working(p.op, Touched(p.copy, p.todo[0]), p.todo[1..])])
    case Store(w) =>
      var p := s.writers[w];
      s.(published := p.copy, writers := s.writers[w := Stored(p.op)], log := s.log + [p.op])
    case Unlock(w) =>
      s.(lock := None, writers := s.writers - {w}, returned := s.returned + [s.writers[w].op])
    case Panic(w) => s.(lock := None, writers := s.writers - {w})
    case Observe => s.(loads := s.loads + [Read(s.published, |s.log|)])
  }

  ghost predicate IsRun(seed: Cache, states: seq<State>, steps: seq<Step>) {
    && |states| == |steps| + 1
    && states[0] == State(seed, None, map[], [], [], [])
    && forall i :: 0 <= i < |steps| ==> Enabled(states[i], steps[i]) && states[i + 1] == Next(states[i], steps[i])
  }

  /** The publication invariant: the published map is the replay of the committed
      writes, and the one active writer's copy is on its way to the next one. */
  ghost predicate Published(seed: Cache, s: State) {
    && s.published == Replay(seed, s.log)
    && (forall w :: w in s.writers ==> s.lock == Some(w))
    && (forall w :: w in s.writers && s.writers[w].Working? ==>
                      TouchedAll(s.writers[w].copy, s.writers[w].todo) == Committed(s.published, s.writers[w].op))
  }

  /** Every write that returned is in the log, in lock order; at most the one that
      has stored but not yet unlocked comes after them. */
  ghost predicate Returned(s: State) {
    || (s.log == s.returned && forall w :: w in s.writers ==> !s.writers[w].Stored?)
    || (exists w :: w in s.writers && s.writers[w].Stored? && s.log == s.returned + [s.writers[w].op])
  }

  /** Each load saw the map after some whole number of writes, and loads never go
      back in time. */
  ghost predicate ReadsConsistent(seed: Cache, s: State) {
    && (forall i :: 0 <= i < |s.loads| ==>
                      s.loads[i].after <= |s.log| && s.loads[i].seen == Replay(seed, s.log[..s.loads[i].after]))
    && (forall i, j :: 0 <= i < j < |s.loads| ==> s.loads[i].after <= s.loads[j].after)
  }

  lemma {:induction false} EditPlan(m: Cache, xs: seq<Mutation>, ts: seq<Touch>)
    requires Plan(m, Edit(xs), ts)
    ensures TouchedAll(m, ts) == MutatedAll(m, xs)
    decreases |xs|
  {
    if xs != [] { EditPlan(Mutated(m, xs[0]), xs[1..], ts[1..]); }
  }

  lemma {:induction false} StalePlan(m: Cache, copy: Cache, now: real, ts: seq<Touch>)
    requires copy.Keys == m.Keys
    requires forall i :: 0 <= i < |ts| ==> ts[i].StaleOne? && ts[i].key in m && ts[i].now == now
    requires forall k :: k in m ==> copy[k] == Stale(m[k], now) || (copy[k] == m[k] && StaleOne(k, now) in ts)
    ensures TouchedAll(copy, ts) == AllStale(m, now)
    decreases |ts|
  {
    if ts != [] {
      var copy' := Touched(copy, ts[0]);
      forall k | k in m && copy'[k] != Stale(m[k], now) ensures copy'[k] == m[k] && StaleOne(k, now) in ts[1..] {
        assert k != ts[0].key;
        assert StaleOne(k, now) in ts && StaleOne(k, now) != ts[0];
      }
      StalePlan(m, copy', now, ts[1..]);
    }
  }

  lemma PlanReaches(m: Cache, op: Op, ts: seq<Touch>)
    requires Plan(m, op, ts)
    ensures TouchedAll(m, ts) == Committed(m, op)
  {
    match op {
      case Edit(xs) => EditPlan(m, xs, ts);
      case MarkStale(now) => StalePlan(m, m, now, ts);
    }
  }

  lemma StepPublishes(seed: Cache, s: State, step: Step)
    requires Published(seed, s) && Enabled(s, step)
    ensures Published(seed, Next(s, step))
  {
    match step {
      case Load(w, plan) => PlanReaches(s.published, s.writers[w].op, plan);
      case Store(w) =>
        var log' := s.log + [s.writers[w].op];
        assert log'[..|s.log|] == s.log;
      case _ =>
    }
  }

  lemma StepReturns(seed: Cache, s: State, step: Step)
    requires Published(seed, s) && Returned(s) && Enabled(s, step)
    ensures Returned(Next(s, step))
  {
    var s' := Next(s, step);
    if step.Store? {
      assert s'.writers[step.w].Stored? && s'.log == s'.returned + [s'.writers[step.w].op];
    } else if step.Observe? {
      assert s'.writers == s.writers;
    } else if !step.Unlock? {
      assert forall w :: w in s.writers ==> !s.writers[w].Stored?;
    }
  }

  lemma StepReads(seed: Cache, s: State, step: Step)
    requires Published(seed, s) && ReadsConsistent(seed, s) && Enabled(s, step)
    ensures ReadsConsistent(seed, Next(s, step))
  {
    var s' := Next(s, step);
    if step.Observe? {
      assert s.log[..|s.log|] == s.log;
    } else {
      forall i | 0 <= i < |s.loads| ensures s'.log[..s.loads[i].after] == s.log[..s.loads[i].after] {}
    }
  }

  /** In every interleaving of writers, readers and panicking writers the cache is
      one atomic map: no write is lost, and no load sees part of a write. */
  lemma {:induction false} Linearizable(seed: Cache, states: seq<State>, steps: seq<Step>)
    requires IsRun(seed, states, steps)
    ensures var s := states[|steps|];
            && Published(seed, s) && Returned(s) && ReadsConsistent(seed, s)
  {
    if steps != [] {
      var n := |steps| - 1;
      Linearizable(seed, states[..n + 1], steps[..n]);
      StepPublishes(seed, states[n], steps[n]);
      StepReturns(seed, states[n], steps[n]);
      StepReads(seed, states[n], steps[n]);
    }
  }

  lemma {:induction false} MutatedAllWellKeyed(m: Cache, xs: seq<Mutation>)
    requires WellKeyed(m)
    ensures WellKeyed(MutatedAll(m, xs))
    decreases |xs|
  {
    if xs != [] { MutatedAllWellKeyed(Mutated(m, xs[0]), xs[1..]); }
  }

  lemma {:induction false} ReplayWellKeyed(seed: Cache, log: seq<Op>)
    requires WellKeyed(seed)
    ensures WellKeyed(Replay(seed, log))
  {
    if log != [] {
      var n := |log| - 1;
      ReplayWellKeyed(seed, log[..n]);
      if log[n].Edit? { MutatedAllWellKeyed(Replay(seed, log[..n]), log[n].xs); }
    }
  }

  /** Whatever a reader ever loads, every entry lies under its own key. */
  lemma ReadsAreWellKeyed(seed: Cache, states: seq<State>, steps: seq<Step>, i: nat)
    requires IsRun(seed, states, steps) && WellKeyed(seed)
    requires i < |states[|steps|].loads|
    ensures WellKeyed(states[|steps|].loads[i].seen)
  {
    Linearizable(seed, states, steps);
    var s := states[|steps|];
    ReplayWellKeyed(seed, s.log[..s.loads[i].after]);
  }

  // ── What a lookup returns ──────────────────────────────────────────────────

  predicate Concerns(x: Mutation, key: Target) {
    match x case Upsert(snap) => snap.key == key case Remove(k) => k == key
  }

  /** The last mutation of a batch that concerns `key`. */
  function LastWord(xs: seq<Mutation>, key: Target): (x: Option<Mutation>)
    ensures x.Some? ==> x.value in xs && Concerns(x.value, key)
    ensures x.None? ==> forall y :: y in xs ==> !Concerns(y, key)
  {
    if xs == [] then None
    else
      var n := |xs| - 1;
      assert xs == xs[..n] + [xs[n]];
      if Concerns(xs[n], key) then Some(xs[n]) else LastWord(xs[..n], key)
  }

  /** The last mutation of the log that concerns `key`. */
  function LastEdit(log: seq<Op>, key: Target): (x: Option<Mutation>) {
    if log == [] then None
    else
      var before, op := LastEdit(log[..|log| - 1], key), log[|log| - 1];
      if op.Edit? && LastWord(op.xs, key).Some? then LastWord(op.xs, key) else before
  }

  /** The last mark of the log, unless `key` was edited after it. */
  function LastMark(log: seq<Op>, key: Target): (now: Option<real>) {
    if log == [] then None
    else
      var before := LastMark(log[..|log| - 1], key);
      match log[|log| - 1]
      case Edit(xs) => if LastWord(xs, key).Some? then None else before
      case MarkStale(now) => Some(now)
  }

  /** One key's story, field by field: `r` is the last snapshot put under the key and not
      removed since, else the first one, stale since the last mark after it. */
  ghost predicate Story(first: Option<Snapshot>, log: seq<Op>, key: Target, r: Option<Snapshot>) {
    match LastEdit(log, key)
    case Some(Upsert(snap)) => r.Some? && Kept(snap, LastMark(log, key), r.value)
    case Some(Remove(_)) => r.None?
    case None => (r.Some? <==> first.Some?) && (r.Some? ==> Kept(first.value, LastMark(log, key), r.value))
  }

  lemma {:induction false} LookupMutated(m: Cache, xs: seq<Mutation>, key: Target)
    ensures Lookup(MutatedAll(m, xs), key) ==
            match LastWord(xs, key)
            case None => Lookup(m, key)
            case Some(Upsert(snap)) => Some(snap)
            case Some(Remove(_)) => None
  {
    if xs != [] {
      var n := |xs| - 1;
      LookupMutated(m, xs[..n], key);
      assert xs == xs[..n] + [xs[n]];
      MutatedAllConcat(m, xs[..n], [xs[n]]);
      assert [xs[n]][1..] == [];
    }
  }

  lemma {:induction false} LookupReplay(seed: Cache, log: seq<Op>, key: Target)
    ensures Story(Lookup(seed, key), log, key, Lookup(Replay(seed, log), key))
  {
    if log != [] {
      var n := |log| - 1;
      LookupReplay(seed, log[..n], key);
      if log[n].Edit? { LookupMutated(Replay(seed, log[..n]), log[n].xs, key); }
    }
  }

  /** In every interleaving, looking a key up in any loaded map gives that key's story
      up to some committed write: whole writes, none lost, none seen ahead of time. */
  lemma LookupTellsTheStory(seed: Cache, states: seq<State>, steps: seq<Step>, i: nat, key: Target)
    requires IsRun(seed, states, steps) && i < |states[|steps|].loads|
    ensures var s := states[|steps|];
            && s.loads[i].after <= |s.log|
            && Story(Lookup(seed, key), s.log[..s.loads[i].after], key, Lookup(s.loads[i].seen, key))
  {
    Linearizable(seed, states, steps);
    LookupReplay(seed, states[|steps|].log[..states[|steps|].loads[i].after], key);
  }
}
