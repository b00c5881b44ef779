/**
 The versioned write path (rust/konfig/grpc/apply.rs, rust/konfig/grpc/revert.rs).

 Writers are serial: each read, check and patch is one step, and a patch that fails
 writes nothing.  Documents are opaque; what a request's YAML parses to, which
 content a schema accepts, and how kube answers are inputs.
 */
module ApplyPath {
  import opened Common
  import opened Ordering

  const U32: nat := 0x1_0000_0000

  type Version = v: int | 0 <= v < 0x1_0000_0000

  datatype Spec = Spec(version: Version, content: string)

  /** An object in the cluster.  `raw` is its `spec.schema_version` as an unsigned
      64-bit number, absent if missing or not a number. */
  datatype Stored = Stored(raw: Option<nat>, content: string)

  type Objects = map<Target, Stored>

  datatype Item = Item(target: Target, spec: Spec)

  datatype ApplyRequest = ApplyRequest(target: Target, parsed: Option<Spec>)

  datatype Status =
    | EmptyBatch | Duplicate(target: Target) | BadYaml(target: Target)
    | SchemaViolation(target: Target) | StaleVersion(target: Target)
    | Aborted | Unavailable | NoRevision | History(code: string)

  /** A rejection that the gate itself can produce. */
  predicate GateStatus(s: Status) {
    s.EmptyBatch? || s.Duplicate? || s.BadYaml? || s.SchemaViolation? || s.StaleVersion?
  }

  // ── The version gate ───────────────────────────────────────────────────────

  /** The 64-bit field is cut to 32 bits, not clamped. */
  function ParsedVersion(raw: Option<nat>): (v: Version) {
    match raw case None => 0 case Some(n) => n % 0x1_0000_0000
  }

  function Current(m: Objects, t: Target): (v: Version) {
    if t in m then ParsedVersion(m[t].raw) else 0
  }

  predicate Accepts(incoming: Version, current: Version) {
    incoming > current
  }

  /** The version is above the stored number as far as 32 bits show it.  An object that is
      missing, or carries no number, is superseded by every version but 0. */
  predicate Supersedes(m: Objects, t: Target, version: Version) {
    if t in m && m[t].raw.Some? then m[t].raw.value % 0x1_0000_0000 < version else version != 0
  }

  /** A write gets in if and only if kube answers and it supersedes what is stored. */
  lemma AcceptedIff(m: Objects, item: Item, kube: Kube)
    ensures SpecResult(m, item, kube).Ok? <==> Answers(kube) && Supersedes(m, item.target, item.spec.version)
    ensures Raw(m, item.target) < U32 && Answers(kube) ==>
              (SpecResult(m, item, kube).Ok? <==> item.spec.version > Raw(m, item.target))
    ensures AfterSpec(m, item, kube) ==
            if Answers(kube) && Supersedes(m, item.target, item.spec.version)
            then m[item.target := Stored(Some(item.spec.version), item.spec.content)] else m
  {
  }

  function Raw(m: Objects, t: Target): (n: nat) {
    if t in m && m[t].raw.Some? then m[t].raw.value else 0
  }

  predicate Sound(raw: nat) {
    raw < U32 || raw % U32 == U32 - 1
  }

  /** The gate keeps every accepted write above the stored number exactly when that
      number fits 32 bits, or is cut to the largest one so that nothing passes. */
  lemma GateIsSoundIff(raw: nat)
    ensures (forall incoming: Version :: Accepts(incoming, ParsedVersion(Some(raw))) ==> incoming > raw) <==>
            Sound(raw)
  {
    if !Sound(raw) {
      var incoming: Version := U32 - 1;
      assert Accepts(incoming, ParsedVersion(Some(raw))) && !(incoming > raw);
    }
  }

  function Write(m: Objects, item: Item): (r: Objects) {
    m[item.target := Stored(Some(item.spec.version), item.spec.content)]
  }

  function WriteAll(m: Objects, items: seq<Item>): (r: Objects) {
    if items == [] then m else Write(WriteAll(m, items[..|items| - 1]), items[|items| - 1])
  }

  // ── One patch with retries ─────────────────────────────────────────────────

  datatype PatchOutcome = Patched(rv: string) | Conflict | Failed

  const RETRIES: nat := 2

  /** Retries conflicts twice; anything else ends the loop at once. */
  method RunPatchRetryLoop(patch: nat -> PatchOutcome) returns (r: Result<string, Status>, calls: nat)
    ensures r == PatchResult(patch)
    ensures 1 <= calls <= 3
    ensures forall i :: 0 <= i < calls - 1 ==> patch(i).Conflict?
    ensures match patch(calls - 1)
            case Patched(rv) => r == Ok(rv)
            case Conflict => calls == 3 && r == Err(Aborted)
            case Failed => r == Err(Unavailable)
  {
    var attempt := 0;
    while true
      invariant attempt <= RETRIES
      invariant forall i :: 0 <= i < attempt ==> patch(i).Conflict?
      decreases RETRIES - attempt
    {
      calls := attempt + 1;
      match patch(attempt) {
        case Patched(rv) => return Ok(rv), calls;
        case Failed => return Err(Unavailable), calls;
        case Conflict =>
          if attempt == RETRIES { return Err(Aborted), calls; }
          attempt := attempt + 1;
      }
    }
  }

  /** Success if one of three attempts succeeds after conflicts only; three conflicts
      abort; any other failure is unavailable. */
  function PatchResult(patch: nat -> PatchOutcome): (r: Result<string, Status>) {
    var n := if !patch(0).Conflict? then 0 else if !patch(1).Conflict? then 1 else 2;
    match patch(n) case Patched(rv) => Ok(rv) case Conflict => Err(Aborted) case Failed => Err(Unavailable)
  }

  // ── One write ──────────────────────────────────────────────────────────────

  /** How kube answers one `apply_spec`: the read may fail, then the patches. */
  datatype Kube = Kube(readFails: bool, patch: nat -> PatchOutcome)

  function SpecResult(m: Objects, item: Item, kube: Kube): (r: Result<string, Status>) {
    if kube.readFails then Err(Unavailable)
    else if !Accepts(item.spec.version, Current(m, item.target)) then Err(StaleVersion(item.target))
    else PatchResult(kube.patch)
  }

  function AfterSpec(m: Objects, item: Item, kube: Kube): (r: Objects) {
    if SpecResult(m, item, kube).Ok? then Write(m, item) else m
  }

  // ── The batch gate ─────────────────────────────────────────────────────────

  /** Every request parses and no two name the same target. */
  ghost predicate Parses(reqs: seq<ApplyRequest>) {
    && reqs != []
    && (forall i :: 0 <= i < |reqs| ==> reqs[i].parsed.Some?)
    && (forall i, j :: 0 <= i < j < |reqs| ==> reqs[i].target != reqs[j].target)
  }

  ghost predicate Aligned(reqs: seq<ApplyRequest>, items: seq<Item>) {
    && |items| == |reqs|
    && forall i :: 0 <= i < |reqs| ==>
         reqs[i].parsed.Some? && items[i] == Item(reqs[i].target, reqs[i].parsed.value)
  }

  ghost predicate Distinct(items: seq<Item>) {
    forall i, j :: 0 <= i < j < |items| ==> items[i].target != items[j].target
  }

  /** Accepts exactly the nonempty batches that parse and name each target once; the
      first offending request is the one reported, a duplicate before bad YAML. */
  method ParseBatchItems(reqs: seq<ApplyRequest>) returns (r: Result<seq<Item>, Status>)
    ensures r.Ok? <==> Parses(reqs)
    ensures r.Ok? ==> Aligned(reqs, r.value) && Distinct(r.value)
    ensures r.Err? ==> FirstOffence(reqs, r.error)
  {
    if reqs == [] { return Err(EmptyBatch); }
    var parsed: seq<Item> := [];
    var seen: set<Target> := {};
    for n := 0 to |reqs|
      invariant seen == set i | 0 <= i < n :: reqs[i].target
      invariant Aligned(reqs[..n], parsed) && Distinct(parsed)
    {
      var t := reqs[n].target;
      assert forall i :: 0 <= i < n ==> reqs[..n][i] == reqs[i] && parsed[i].target == reqs[i].target;
      if t in seen {
        assert exists j :: 0 <= j < n && reqs[j].target == t;
        assert Offends(reqs, n, Duplicate(t));
        return Err(Duplicate(t));
      }
      if reqs[n].parsed.None? {
        assert Offends(reqs, n, BadYaml(t));
        return Err(BadYaml(t));
      }
      parsed := parsed + [Item(t, reqs[n].parsed.value)];
      seen := seen + {t};
    }
    assert reqs[..|reqs|] == reqs;
    r := Ok(parsed);
  }

  /** `e` reports request `n`, and nothing is wrong before it. */
  ghost predicate Offends(reqs: seq<ApplyRequest>, n: int, e: Status) {
    && 0 <= n < |reqs|
    && (n > 0 ==> Parses(reqs[..n]))
    && ((exists j :: 0 <= j < n && reqs[j].target == reqs[n].target) ==> e == Duplicate(reqs[n].target))
    && ((forall j :: 0 <= j < n ==> reqs[j].target != reqs[n].target) ==>
          reqs[n].parsed.None? && e == BadYaml(reqs[n].target))
  }

  ghost predicate FirstOffence(reqs: seq<ApplyRequest>, e: Status) {
    if reqs == [] then e == EmptyBatch else exists n :: Offends(reqs, n, e)
  }

  predicate AllNewer(m: Objects, items: seq<Item>) {
    forall i :: 0 <= i < |items| ==> Accepts(items[i].spec.version, Current(m, items[i].target))
  }

  // ── Sorting ────────────────────────────────────────────────────────────────

  ghost predicate Ascending(items: seq<Item>) {
    forall i, j :: 0 <= i < j < |items| ==> Le(items[i].target, items[j].target)
  }

  function Insert(x: Item, s: seq<Item>): (r: seq<Item>)
    ensures multiset(r) == multiset(s) + multiset{x}
  {
    if s == [] || Le(x.target, s[0].target) then [x] + s
    else
      assert s == [s[0]] + s[1..];
      [s[0]] + Insert(x, s[1..])
  }

  function Sorted(items: seq<Item>): (r: seq<Item>)
    ensures multiset(r) == multiset(items)
    ensures |r| == |items|
  {
    if items == [] then []
    else
      assert items == [items[0]] + items[1..];
      assert |multiset(items)| == |items|;
      var r := Insert(items[0], Sorted(items[1..]));
      assert |multiset(r)| == |r|;
      r
  }

  lemma {:induction false} InsertAscending(x: Item, s: seq<Item>)
    requires Ascending(s)
    ensures Ascending(Insert(x, s))
  {
    if s != [] {
      LeTotalOrder(x.target, s[0].target, x.target);
      if Le(x.target, s[0].target) {
        forall j | 0 <= j < |s| ensures Le(x.target, s[j].target) { LeTotalOrder(x.target, s[0].target, s[j].target); }
      } else {
        InsertAscending(x, s[1..]);
        var r := Insert(x, s[1..]);
        forall j | 0 <= j < |r| ensures Le(s[0].target, r[j].target) {
          assert r[j] in multiset(s[1..]) + multiset{x};
        }
      }
    }
  }

  lemma {:induction false} SortedAscending(items: seq<Item>)
    ensures Ascending(Sorted(items))
  {
    if items != [] {
      SortedAscending(items[1..]);
      InsertAscending(items[0], Sorted(items[1..]));
    }
  }

  /** Among permutations without repeated targets only one is ascending. */
  lemma {:induction false} AscendingIsUnique(a: seq<Item>, b: seq<Item>)
    requires Ascending(a) && Ascending(b) && multiset(a) == multiset(b) && Distinct(a)
    ensures a == b
  {
    assert |multiset(a)| == |a| && |multiset(b)| == |b|;
    if a != [] {
      SameHead(a, b);
      TailBag(a);
      TailBag(b);
      AscendingIsUnique(a[1..], b[1..]);
      assert a == [a[0]] + a[1..] && b == [b[0]] + b[1..];
    }
  }

  lemma SameHead(a: seq<Item>, b: seq<Item>)
    requires Ascending(a) && Ascending(b) && multiset(a) == multiset(b) && Distinct(a) && a != []
    ensures b != [] && a[0] == b[0]
  {
    assert a[0] in multiset(b);
    assert b[0] in multiset(a);
    var i :| 0 <= i < |b| && b[i] == a[0];
    var j :| 0 <= j < |a| && a[j] == b[0];
    LeTotalOrder(a[0].target, b[0].target, a[0].target);
  }

  lemma TailBag<T>(s: seq<T>)
    requires s != []
    ensures multiset(s[1..]) == multiset(s) - multiset{s[0]}
  {
    assert s == [s[0]] + s[1..];
  }

  lemma {:induction false} PermutedDistinct(a: seq<Item>, b: seq<Item>)
    requires multiset(a) == multiset(b) && Distinct(a)
    ensures Distinct(b)
  {
    forall i, j | 0 <= i < j < |b| && b[i].target == b[j].target ensures false {
      assert b[i] in multiset(a) && b[j] in multiset(a);
      var p :| 0 <= p < |a| && a[p] == b[i];
      var q :| 0 <= q < |a| && a[q] == b[j];
      assert p == q;
      TwiceAt(b, i, j);
      OnceOnly(a, p);
    }
  }

  lemma TwiceAt(b: seq<Item>, i: nat, j: nat)
    requires i < j < |b| && b[i] == b[j]
    ensures multiset(b)[b[i]] >= 2
  {
    assert b == b[..j] + [b[j]] + b[j + 1..];
    assert b[i] == b[..j][i] && b[i] in multiset(b[..j]);
  }

  lemma OnceOnly(a: seq<Item>, p: nat)
    requires p < |a| && Distinct(a)
    ensures multiset(a)[a[p]] == 1
  {
    assert a == a[..p] + [a[p]] + a[p + 1..];
    assert a[p] !in a[..p] && a[p] !in a[p + 1..];
  }

  // ── The whole batch ────────────────────────────────────────────────────────

  /** Dedup makes the per-item check redundant: after a gate pass over distinct
      targets, writing some items never makes another one stale. */
  lemma {:induction false} RecheckCannotReject(m: Objects, items: seq<Item>, n: nat)
    requires n < |items| && Distinct(items) && AllNewer(m, items)
    ensures Accepts(items[n].spec.version, Current(WriteAll(m, items[..n]), items[n].target))
  {
    WriteAllElsewhere(m, items[..n], items[n].target);
  }

  lemma {:induction false} WriteAllElsewhere(m: Objects, items: seq<Item>, t: Target)
    requires forall i :: 0 <= i < |items| ==> items[i].target != t
    ensures t in WriteAll(m, items) <==> t in m
    ensures t in m ==> WriteAll(m, items)[t] == m[t]
  {
    if items != [] { WriteAllElsewhere(m, items[..|items| - 1], t); }
  }

  /** Writing a run of distinct items stores each of them, and nothing else changes. */
  lemma {:induction false} WriteAllStores(m: Objects, items: seq<Item>, i: nat)
    requires i < |items| && Distinct(items)
    ensures var x := items[i];
            && x.target in WriteAll(m, items)
            && WriteAll(m, items)[x.target] == Stored(Some(x.spec.version), x.spec.content)
  {
    if i < |items| - 1 { WriteAllStores(m, items[..|items| - 1], i); }
  }

  /** After a batch that stopped after `done` items, exactly those are stored. */
  lemma BatchStoresItsPrefix(m: Objects, sorted: seq<Item>, done: nat, i: nat)
    requires done <= |sorted| && i < |sorted| && Distinct(sorted)
    ensures var x, m' := sorted[i], WriteAll(m, sorted[..done]);
            if i < done then x.target in m' && m'[x.target] == Stored(Some(x.spec.version), x.spec.content)
            else (x.target in m' <==> x.target in m) && (x.target in m ==> m'[x.target] == m[x.target])
  {
    if i < done {
      WriteAllStores(m, sorted[..done], i);
    } else {
      WriteAllElsewhere(m, sorted[..done], sorted[i].target);
    }
  }

  /** One request meets its schema and supersedes what is stored. */
  predicate Passes(m: Objects, r: ApplyRequest, valid: (Target, string) -> bool) {
    MeetsSchema(r, valid) && IsNewer(m, r)
  }

  predicate MeetsSchema(r: ApplyRequest, valid: (Target, string) -> bool) {
    r.parsed.Some? && valid(r.target, r.parsed.value.content)
  }

  ghost predicate AllMeetSchema(reqs: seq<ApplyRequest>, valid: (Target, string) -> bool) {
    forall i :: 0 <= i < |reqs| ==> MeetsSchema(reqs[i], valid)
  }

  /** Request `i` violates its schema and none before it does. */
  ghost predicate FirstInvalid(reqs: seq<ApplyRequest>, valid: (Target, string) -> bool, i: int) {
    0 <= i < |reqs| && !MeetsSchema(reqs[i], valid) && AllMeetSchema(reqs[..i], valid)
  }

  predicate IsNewer(m: Objects, r: ApplyRequest) {
    r.parsed.Some? && Supersedes(m, r.target, r.parsed.value.version)
  }

  /** Request `i` is stale and none before it is. */
  ghost predicate FirstStale(m: Objects, reqs: seq<ApplyRequest>, i: int) {
    0 <= i < |reqs| && !IsNewer(m, reqs[i]) && forall j :: 0 <= j < i ==> IsNewer(m, reqs[j])
  }

  /** Passing the gate, whatever the request order. */
  ghost predicate GatePasses(m: Objects, reqs: seq<ApplyRequest>, valid: (Target, string) -> bool) {
    && Parses(reqs)
    && forall i :: 0 <= i < |reqs| ==>
         && valid(reqs[i].target, reqs[i].parsed.value.content)
         && Accepts(reqs[i].parsed.value.version, Current(m, reqs[i].target))
  }

  /** The gate passes and none of its version reads fails. */
  ghost predicate GateOpens(m: Objects, reqs: seq<ApplyRequest>, valid: (Target, string) -> bool,
                            gateReadFails: nat -> bool)
  {
    GatePasses(m, reqs, valid) && forall i :: 0 <= i < |reqs| ==> !gateReadFails(i)
  }

  /** What kube makes of a write that is not stale. */
  function Answer(kube: Kube): (r: Result<string, Status>)
    ensures r.Err? ==> r.error == Aborted || r.error == Unavailable
  {
    if kube.readFails then Err(Unavailable) else PatchResult(kube.patch)
  }

  predicate Answers(kube: Kube) {
    Answer(kube).Ok?
  }

  datatype BatchResult = BatchResult(target: Target, resourceVersion: string)

  /** One result per written item, in the order written. */
  ghost predicate Reports(results: seq<BatchResult>, queue: seq<Item>, kube: nat -> Kube) {
    && |results| <= |queue|
    && forall i :: 0 <= i < |results| ==>
         Answer(kube(i)) == Ok(results[i].resourceVersion) && results[i].target == queue[i].target
  }

  /** How many of the first `n` writes kube answers before one fails. */
  function Answered(kube: nat -> Kube, n: nat): (done: nat)
    ensures done <= n && (forall i :: 0 <= i < done ==> Answers(kube(i))) && (done < n ==> !Answers(kube(done)))
  {
    if n == 0 then 0
    else
      var done := Answered(kube, n - 1);
      if done == n - 1 && Answers(kube(done)) then n else done
  }

  /** The store after a batch: unchanged behind a closed gate, otherwise with the
      items written in ascending order up to the first failure. */
  ghost function AfterBatch(m: Objects, reqs: seq<ApplyRequest>, valid: (Target, string) -> bool,
                            gateReadFails: nat -> bool, kube: nat -> Kube): (r: Objects)
  {
    if GateOpens(m, reqs, valid, gateReadFails)
    then WriteAll(m, Sorted(ItemsOf(reqs))[..Answered(kube, |reqs|)])
    else m
  }

  predicate ApplyReaches(req: ApplyRequest, valid: (Target, string) -> bool) {
    req.parsed.Some? && valid(req.target, req.parsed.value.content)
  }

  function AfterApply(m: Objects, req: ApplyRequest, valid: (Target, string) -> bool, kube: Kube): (r: Objects) {
    if ApplyReaches(req, valid) then AfterSpec(m, Item(req.target, req.parsed.value), kube) else m
  }

  /** The cluster's config objects. */
  class Cluster {
    var objects: Objects

    constructor (objects: Objects)
      ensures this.objects == objects
    {
      this.objects := objects;
    }

    /** Read, check, patch. */
    method ApplySpec(item: Item, kube: Kube) returns (r: Result<string, Status>)
      modifies this
      ensures r == SpecResult(old(objects), item, kube)
      ensures objects == AfterSpec(old(objects), item, kube)
    {
      if kube.readFails { return Err(Unavailable); }
      var current := Current(objects, item.target);
      if item.spec.version <= current { return Err(StaleVersion(item.target)); }
      var calls;
      r, calls := RunPatchRetryLoop(kube.patch);
      if r.Ok? {
        objects := objects[item.target := Stored(Some(item.spec.version), item.spec.content)];
      }
    }

    /** A single Apply: parse, schema, then read, check and patch. */
    method HandleApply(req: ApplyRequest, valid: (Target, string) -> bool, kube: Kube)
      returns (r: Result<string, Status>)
      modifies this
      ensures objects == AfterApply(old(objects), req, valid, kube)
      ensures r.Err? ==> objects == old(objects)
      ensures r == if req.parsed.None? then Err(BadYaml(req.target))
                   else if !valid(req.target, req.parsed.value.content) then Err(SchemaViolation(req.target))
                   else if kube.readFails then Err(Unavailable)
                   else if !Supersedes(old(objects), req.target, req.parsed.value.version)
                   then Err(StaleVersion(req.target))
                   else PatchResult(kube.patch)
      ensures r.Ok? ==>
                var spec := req.parsed.value;
                objects == old(objects)[req.target := Stored(Some(spec.version), spec.content)]
    {
      if req.parsed.None? { return Err(BadYaml(req.target)); }
      var spec := req.parsed.value;
      if !valid(req.target, spec.content) { return Err(SchemaViolation(req.target)); }
      r := ApplySpec(Item(req.target, spec), kube);
    }

    /** The batch handler.  A gate rejection writes nothing and says which gate; after
        the gate exactly a prefix of the sorted items is written, all of them unless
        kube fails, and a failure there is never a version rejection. */
    method HandleBatchApply(reqs: seq<ApplyRequest>, valid: (Target, string) -> bool,
                            gateReadFails: nat -> bool, kube: nat -> Kube)
      returns (r: Result<seq<BatchResult>, Status>, ghost sorted: seq<Item>, ghost done: nat)
      modifies this
      ensures objects == AfterBatch(old(objects), reqs, valid, gateReadFails, kube)
      ensures done <= |sorted| && objects == WriteAll(old(objects), sorted[..done])
      ensures Distinct(sorted) && AllNewer(old(objects), sorted)
      ensures !GatePasses(old(objects), reqs, valid) ==> r.Err? && done == 0
      ensures !Parses(reqs) ==> r.Err? && FirstOffence(reqs, r.error)
      ensures r.Err? && GateStatus(r.error) ==> !GatePasses(old(objects), reqs, valid)
      ensures sorted == if GateOpens(old(objects), reqs, valid, gateReadFails) then Sorted(ItemsOf(reqs)) else []
      ensures r.Ok? ==> done == |sorted| == |r.value| && Reports(r.value, sorted, kube)
      ensures r.Err? && sorted != [] ==> done < |sorted| && Answer(kube(done)) == Err(r.error)
      ensures r.Ok? <==>
              && Parses(reqs)
              && (forall i :: 0 <= i < |reqs| ==> Passes(old(objects), reqs[i], valid))
              && (forall i :: 0 <= i < |reqs| ==> !gateReadFails(i) && Answers(kube(i)))
    {
      var gate := CheckBatch(reqs, valid, gateReadFails);
      sorted, done := [], 0;
      if gate.Err? { return Err(gate.error), [], 0; }
      AlignedItems(reqs, gate.value);
      SortedKeepsGate(objects, gate.value);
      sorted := Sorted(gate.value);
      r := WriteItems(Sorted(gate.value), kube);
      done := Answered(kube, |reqs|);
    }

    /** The write loop behind the gate: stops at the first item kube does not answer. */
    method WriteItems(queue: seq<Item>, kube: nat -> Kube) returns (r: Result<seq<BatchResult>, Status>)
      requires Distinct(queue) && AllNewer(objects, queue)
      modifies this
      ensures objects == WriteAll(old(objects), queue[..Answered(kube, |queue|)])
      ensures r.Ok? <==> Answered(kube, |queue|) == |queue|
      ensures r.Ok? ==> |r.value| == |queue| && Reports(r.value, queue, kube)
      ensures r.Err? ==> Answer(kube(Answered(kube, |queue|))) == Err(r.error)
    {
      var results: seq<BatchResult> := [];
      for n := 0 to |queue|
        invariant n == |results| && Reports(results, queue, kube)
        invariant objects == WriteAll(old(objects), queue[..n])
        invariant forall i :: 0 <= i < n ==> Answers(kube(i))
      {
        NextWrite(old(objects), queue, n, kube(n));
        var one := ApplySpec(queue[n], kube(n));
        if one.Err? {
          AnsweredIs(kube, |queue|, n);
          return Err(one.error);
        }
        ReportOneMore(results, queue, kube, one.value);
        results := results + [BatchResult(queue[n].target, one.value)];
      }
      AnsweredIs(kube, |queue|, |queue|);
      r := Ok(results);
    }

    /** The gates in front of the first write: parse and dedup, schema, version. */
    method CheckBatch(reqs: seq<ApplyRequest>, valid: (Target, string) -> bool, gateReadFails: nat -> bool)
      returns (r: Result<seq<Item>, Status>)
      ensures r.Ok? ==> GatePasses(objects, reqs, valid) && Aligned(reqs, r.value)
                        && Distinct(r.value) && AllNewer(objects, r.value)
      ensures r.Err? ==> r.error == Unavailable || (GateStatus(r.error) && !GatePasses(objects, reqs, valid))
      ensures !Parses(reqs) ==> r.Err? && FirstOffence(reqs, r.error)
      ensures r.Ok? <==> GateOpens(objects, reqs, valid, gateReadFails)
      ensures r.Ok? <==>
              && Parses(reqs)
              && (forall i :: 0 <= i < |reqs| ==> Passes(objects, reqs[i], valid))
              && (forall i :: 0 <= i < |reqs| ==> !gateReadFails(i))
      ensures Parses(reqs) ==>
                forall i :: FirstInvalid(reqs, valid, i) ==> r == Err(SchemaViolation(reqs[i].target))
      ensures Parses(reqs) && AllMeetSchema(reqs, valid) && (exists i :: 0 <= i < |reqs| && gateReadFails(i)) ==>
                r == Err(Unavailable)
      ensures Parses(reqs) && AllMeetSchema(reqs, valid) && (forall i :: 0 <= i < |reqs| ==> !gateReadFails(i)) ==>
                forall i :: FirstStale(objects, reqs, i) ==> r == Err(StaleVersion(reqs[i].target))
    {
      r := ParseBatchItems(reqs);
      if r.Err? { return; }
      var items := r.value;
      for i := 0 to |items|
        invariant forall j :: 0 <= j < i ==> valid(items[j].target, items[j].spec.content)
      {
        if !valid(items[i].target, items[i].spec.content) {
          assert reqs[i].target == items[i].target;
          return Err(SchemaViolation(items[i].target));
        }
      }
      for i := 0 to |items|
        invariant forall j :: 0 <= j < i ==> !gateReadFails(j)
      {
        if gateReadFails(i) { return Err(Unavailable); }
      }
      for i := 0 to |items|
        invariant AllNewer(objects, items[..i])
      {
        if items[i].spec.version <= Current(objects, items[i].target) {
          assert reqs[i].target == items[i].target;
          return Err(StaleVersion(items[i].target));
        }
      }
      assert items[..|items|] == items;
      forall i | 0 <= i < |reqs|
        ensures valid(reqs[i].target, reqs[i].parsed.value.content)
        ensures Accepts(reqs[i].parsed.value.version, Current(objects, reqs[i].target))
      {
        assert items[i] == Item(reqs[i].target, reqs[i].parsed.value);
      }
    }

    /** Replays an old revision one version above both it and the current one. */
    method HandleRevert(target: Target, toRevision: string, historical: Result<Spec, Status>,
                        currentReadFails: bool, kube: Kube) returns (r: Result<(string, Version), Status>)
      modifies this
      ensures objects == AfterRevert(old(objects), target, toRevision, historical, currentReadFails, kube)
      ensures r.Ok? <==> Reverts(old(objects), target, toRevision, historical, currentReadFails, kube)
      ensures toRevision == "" ==> r == Err(NoRevision)
      ensures toRevision != "" && historical.Err? ==> r == Err(historical.error)
      ensures toRevision != "" && historical.Ok? && (currentReadFails || kube.readFails) ==> r == Err(Unavailable)
      ensures r.Ok? ==> historical.Ok? && Answer(kube) == Ok(r.value.0) &&
                        r.value.1 == RevertVersion(Current(old(objects), target), historical.value.version) &&
                        objects == old(objects)[target := Stored(Some(r.value.1), historical.value.content)]
      ensures r.Err? ==> objects == old(objects)
      ensures toRevision != "" && historical.Ok? && !currentReadFails && Answers(kube) ==>
                (r.Ok? <==> Current(old(objects), target) < U32 - 1)
    {
      if toRevision == "" { return Err(NoRevision); }
      if historical.Err? { return Err(historical.error); }
      if currentReadFails { return Err(Unavailable); }
      var current := Current(objects, target);
      var version := RevertVersion(current, historical.value.version);
      RevertPassesIff(current, historical.value.version);
      var one := ApplySpec(Item(target, Spec(version, historical.value.content)), kube);
      r := match one case Ok(rv) => Ok((rv, version)) case Err(e) => Err(e);
    }
  }

  /** Behind the gate a write depends on kube alone. */
  lemma NextWrite(m: Objects, items: seq<Item>, n: nat, kube: Kube)
    requires n < |items| && Distinct(items) && AllNewer(m, items)
    ensures var before := WriteAll(m, items[..n]);
            && SpecResult(before, items[n], kube) == Answer(kube)
            && AfterSpec(before, items[n], kube) == if Answers(kube) then WriteAll(m, items[..n + 1]) else before
  {
    RecheckCannotReject(m, items, n);
    assert items[..n + 1][..n] == items[..n];
  }

  lemma ReportOneMore(results: seq<BatchResult>, queue: seq<Item>, kube: nat -> Kube, rv: string)
    requires |results| < |queue| && Reports(results, queue, kube) && Answer(kube(|results|)) == Ok(rv)
    ensures Reports(results + [BatchResult(queue[|results|].target, rv)], queue, kube)
  {
  }

  lemma SortedKeepsGate(m: Objects, items: seq<Item>)
    requires Distinct(items) && AllNewer(m, items)
    ensures Distinct(Sorted(items)) && AllNewer(m, Sorted(items))
  {
    var s := Sorted(items);
    PermutedDistinct(items, s);
    forall i | 0 <= i < |s| ensures Accepts(s[i].spec.version, Current(m, s[i].target)) {
      assert s[i] in multiset(items);
    }
  }

  /** The write order, and with it every prefix left by a failure, does not depend on
      the order of the requests. */
  lemma WriteOrderIgnoresRequestOrder(reqs: seq<ApplyRequest>, reqs': seq<ApplyRequest>, a: seq<Item>, b: seq<Item>)
    requires multiset(reqs) == multiset(reqs') && Parses(reqs)
    requires Aligned(reqs, a) && Aligned(reqs', b)
    ensures Sorted(a) == Sorted(b)
  {
    AlignedPermutation(reqs, a, reqs', b);
    assert Distinct(a);
    SortedAscending(a);
    SortedAscending(b);
    PermutedDistinct(a, Sorted(a));
    AscendingIsUnique(Sorted(a), Sorted(b));
  }

  /** Nor does the verdict of the gate. */
  lemma GateIgnoresRequestOrder(m: Objects, reqs: seq<ApplyRequest>, reqs': seq<ApplyRequest>,
                                valid: (Target, string) -> bool)
    requires multiset(reqs) == multiset(reqs')
    ensures GatePasses(m, reqs, valid) <==> GatePasses(m, reqs', valid)
  {
    if GatePasses(m, reqs, valid) { GateSurvivesReordering(m, reqs, reqs', valid); }
    if GatePasses(m, reqs', valid) { GateSurvivesReordering(m, reqs', reqs, valid); }
  }

  lemma GateSurvivesReordering(m: Objects, reqs: seq<ApplyRequest>, reqs': seq<ApplyRequest>,
                               valid: (Target, string) -> bool)
    requires multiset(reqs) == multiset(reqs') && GatePasses(m, reqs, valid)
    ensures GatePasses(m, reqs', valid)
  {
    assert |multiset(reqs)| == |reqs| && |multiset(reqs')| == |reqs'|;
    forall i | 0 <= i < |reqs'| ensures reqs'[i] in reqs { assert reqs'[i] in multiset(reqs); }
    PermutedItems(reqs, reqs');
    ItemsAt(reqs);
    ItemsAt(reqs');
    assert Distinct(ItemsOf(reqs));
    PermutedDistinct(ItemsOf(reqs), ItemsOf(reqs'));
    forall i, j | 0 <= i < j < |reqs'| ensures reqs'[i].target != reqs'[j].target {
      assert ItemsOf(reqs')[i].target != ItemsOf(reqs')[j].target;
    }
  }

  /** Nor, then, does the store a batch leaves, as long as the gate's reads are answered or
      not alike: the same items are written in the same order up to the same failure. */
  lemma BatchIgnoresRequestOrder(m: Objects, reqs: seq<ApplyRequest>, reqs': seq<ApplyRequest>,
                                 valid: (Target, string) -> bool,
                                 fails: nat -> bool, fails': nat -> bool, kube: nat -> Kube)
    requires multiset(reqs) == multiset(reqs')
    requires (exists i :: 0 <= i < |reqs| && fails(i)) <==> (exists i :: 0 <= i < |reqs'| && fails'(i))
    ensures AfterBatch(m, reqs, valid, fails, kube) == AfterBatch(m, reqs', valid, fails', kube)
  {
    assert |multiset(reqs)| == |reqs| && |multiset(reqs')| == |reqs'|;
    GateIgnoresRequestOrder(m, reqs, reqs', valid);
    assert GateOpens(m, reqs, valid, fails) <==> GateOpens(m, reqs', valid, fails');
    if GatePasses(m, reqs, valid) { SameQueue(reqs, reqs'); }
  }

  lemma SameQueue(reqs: seq<ApplyRequest>, reqs': seq<ApplyRequest>)
    requires multiset(reqs) == multiset(reqs') && Parses(reqs) && Parses(reqs')
    ensures Sorted(ItemsOf(reqs)) == Sorted(ItemsOf(reqs'))
  {
    ItemsAt(reqs);
    ItemsAt(reqs');
    WriteOrderIgnoresRequestOrder(reqs, reqs', ItemsOf(reqs), ItemsOf(reqs'));
  }

  function ItemOf(r: ApplyRequest): (x: Item) {
    Item(r.target, if r.parsed.Some? then r.parsed.value else Spec(0, ""))
  }

  function ItemsOf(reqs: seq<ApplyRequest>): (xs: seq<Item>)
    ensures |xs| == |reqs|
  {
    if reqs == [] then [] else [ItemOf(reqs[0])] + ItemsOf(reqs[1..])
  }

  lemma {:induction false} ItemsAt(reqs: seq<ApplyRequest>)
    ensures forall i :: 0 <= i < |reqs| ==> ItemsOf(reqs)[i] == ItemOf(reqs[i])
  {
    if reqs != [] { ItemsAt(reqs[1..]); }
  }

  /** Each item occurs as often as the request it came from. */
  lemma {:induction false} CountItems(reqs: seq<ApplyRequest>, x: Item)
    requires forall r :: r in reqs ==> r.parsed.Some?
    ensures multiset(ItemsOf(reqs))[x] == multiset(reqs)[ApplyRequest(x.target, Some(x.spec))]
  {
    if reqs != [] {
      assert reqs == [reqs[0]] + reqs[1..];
      CountItems(reqs[1..], x);
      assert ItemOf(reqs[0]) == x <==> reqs[0] == ApplyRequest(x.target, Some(x.spec));
    }
  }

  lemma PermutedItems(xs: seq<ApplyRequest>, ys: seq<ApplyRequest>)
    requires multiset(xs) == multiset(ys) && forall r :: r in xs ==> r.parsed.Some?
    ensures multiset(ItemsOf(xs)) == multiset(ItemsOf(ys))
  {
    assert forall r :: r in ys ==> r in multiset(xs);
    forall x ensures multiset(ItemsOf(xs))[x] == multiset(ItemsOf(ys))[x] {
      CountItems(xs, x);
      CountItems(ys, x);
    }
  }

  lemma AlignedItems(reqs: seq<ApplyRequest>, a: seq<Item>)
    requires Aligned(reqs, a)
    ensures a == ItemsOf(reqs)
  {
    ItemsAt(reqs);
  }

  lemma {:induction false} AnsweredIs(kube: nat -> Kube, n: nat, done: nat)
    requires done <= n && (forall i :: 0 <= i < done ==> Answers(kube(i))) && (done < n ==> !Answers(kube(done)))
    ensures Answered(kube, n) == done
  {
  }

  lemma AlignedPermutation(reqs: seq<ApplyRequest>, a: seq<Item>, reqs': seq<ApplyRequest>, b: seq<Item>)
    requires multiset(reqs) == multiset(reqs') && Aligned(reqs, a) && Aligned(reqs', b)
    ensures multiset(a) == multiset(b)
  {
    AlignedItems(reqs, a);
    AlignedItems(reqs', b);
    PermutedItems(reqs, reqs');
  }

  // ── Revert ─────────────────────────────────────────────────────────────────

  function RevertVersion(current: Version, historical: Version): (v: Version) {
    var top := if current >= historical then current else historical;
    if top == U32 - 1 then top else top + 1
  }

  /** A revert passes the version gate exactly when the current version is not the
      largest one; short of that it lands above both versions. */
  lemma RevertPassesIff(current: Version, historical: Version)
    ensures Accepts(RevertVersion(current, historical), current) <==> current < U32 - 1
    ensures var v := RevertVersion(current, historical);
            if current < U32 - 1 && historical < U32 - 1
            then v > current && v > historical && (v - 1 == current || v - 1 == historical)
            else v == U32 - 1
  {
  }

  function RevertItem(m: Objects, t: Target, historical: Spec): (x: Item) {
    Item(t, Spec(RevertVersion(Current(m, t), historical.version), historical.content))
  }

  predicate Reverts(m: Objects, t: Target, toRevision: string, historical: Result<Spec, Status>,
                    readFails: bool, kube: Kube)
  {
    toRevision != "" && historical.Ok? && !readFails && SpecResult(m, RevertItem(m, t, historical.value), kube).Ok?
  }

  function AfterRevert(m: Objects, t: Target, toRevision: string, historical: Result<Spec, Status>,
                       readFails: bool, kube: Kube): (r: Objects)
  {
    if Reverts(m, t, toRevision, historical, readFails, kube) then Write(m, RevertItem(m, t, historical.value)) else m
  }

  // ── Versions over serial runs ──────────────────────────────────────────────

  /** One request with everything that decides what it does to the store. */
  datatype Op =
    | ApplyOp(req: ApplyRequest, valid: (Target, string) -> bool, kube: Kube)
    | BatchOp(reqs: seq<ApplyRequest>, schemas: (Target, string) -> bool,
              gateReadFails: nat -> bool, writes: nat -> Kube)
    | RevertOp(target: Target, toRevision: string, historical: Result<Spec, Status>, readFails: bool, patch: Kube)

  /** The effect of a request, as the handlers' contracts state it. */
  ghost function Did(m: Objects, op: Op): (r: Objects) {
    match op
    case ApplyOp(req, valid, kube) => AfterApply(m, req, valid, kube)
    case BatchOp(reqs, valid, gateReadFails, kube) => AfterBatch(m, reqs, valid, gateReadFails, kube)
    case RevertOp(t, rev, historical, readFails, kube) => AfterRevert(m, t, rev, historical, readFails, kube)
  }

  ghost predicate IsRun(states: seq<Objects>, ops: seq<Op>) {
    && |states| == |ops| + 1
    && forall i :: 0 <= i < |ops| ==> states[i + 1] == Did(states[i], ops[i])
  }

  /** The object is either untouched or replaced by one with a larger version. */
  ghost predicate Advances(m: Objects, m': Objects, t: Target) {
    || (t in m && t in m' && (m'[t] == m[t] || Raw(m', t) > Raw(m, t)))
    || (t !in m && (t in m' ==> Raw(m', t) > 0))
  }

  lemma WriteAdvances(m: Objects, item: Item, t: Target)
    requires Sound(Raw(m, t)) && Accepts(item.spec.version, Current(m, item.target))
    ensures Advances(m, Write(m, item), t) && Sound(Raw(Write(m, item), t))
  {
    if t == item.target { assert Current(m, t) == Raw(m, t) % U32; }
  }

  lemma {:induction false} WriteAllAdvances(m: Objects, items: seq<Item>, t: Target)
    requires Sound(Raw(m, t)) && Distinct(items) && AllNewer(m, items)
    ensures Advances(m, WriteAll(m, items), t) && Sound(Raw(WriteAll(m, items), t))
  {
    if items != [] {
      var n := |items| - 1;
      WriteAllAdvances(m, items[..n], t);
      RecheckCannotReject(m, items, n);
      WriteAdvances(WriteAll(m, items[..n]), items[n], t);
    }
  }

  lemma BatchAdvances(m: Objects, op: Op, t: Target)
    requires op.BatchOp? && Sound(Raw(m, t))
    ensures Advances(m, Did(m, op), t) && Sound(Raw(Did(m, op), t))
  {
    if GateOpens(m, op.reqs, op.schemas, op.gateReadFails) {
      var items := ItemsOf(op.reqs);
      ItemsAt(op.reqs);
      assert Distinct(items) && AllNewer(m, items);
      SortedKeepsGate(m, items);
      WriteAllAdvances(m, Sorted(items)[..Answered(op.writes, |op.reqs|)], t);
    }
  }

  lemma StepAdvances(m: Objects, op: Op, t: Target)
    requires Sound(Raw(m, t))
    ensures Advances(m, Did(m, op), t) && Sound(Raw(Did(m, op), t))
  {
    match op {
      case ApplyOp(req, valid, kube) =>
        if Did(m, op) != m { WriteAdvances(m, Item(req.target, req.parsed.value), t); }
      case BatchOp(_, _, _, _) => BatchAdvances(m, op, t);
      case RevertOp(u, _, historical, _, _) =>
        if Did(m, op) != m { WriteAdvances(m, RevertItem(m, u, historical.value), t); }
    }
  }

  /** In every serial run each write to an object strictly raises its stored version
      and the object never disappears, if its first version is one the gate is sound for. */
  lemma {:induction false} VersionsOnlyRise(states: seq<Objects>, ops: seq<Op>, i: nat, j: nat, t: Target)
    requires IsRun(states, ops) && i <= j <= |ops| && Sound(Raw(states[i], t))
    ensures Advances(states[i], states[j], t) && Raw(states[i], t) <= Raw(states[j], t)
    ensures Sound(Raw(states[j], t))
    decreases j - i
  {
    if i < j {
      VersionsOnlyRise(states, ops, i, j - 1, t);
      StepAdvances(states[j - 1], ops[j - 1], t);
    }
  }

  /** An Apply of the largest version. */
  ghost function Topmost(t: Target): (op: Op) {
    ApplyOp(ApplyRequest(t, Some(Spec(0xFFFF_FFFF, ""))), (_, _) => true, Kube(false, _ => Patched("")))
  }

  /** From any other stored number the version falls: the cut number lets a smaller
      version pass. */
  lemma FallingVersionCounterexample(m: Objects, t: Target)
    requires !Sound(Raw(m, t))
    ensures IsRun([m, Did(m, Topmost(t))], [Topmost(t)])
    ensures Raw(Did(m, Topmost(t)), t) == U32 - 1 < Raw(m, t)
  {
    assert Current(m, t) == Raw(m, t) % U32;
  }

  ghost predicate NeverFalls(states: seq<Objects>, t: Target) {
    forall i, j :: 0 <= i <= j < |states| ==>
                     Advances(states[i], states[j], t) && Raw(states[i], t) <= Raw(states[j], t)
  }

  /** An object's version rises with every write of every run from `m` exactly if its
      stored number fits 32 bits or is cut to the largest one. */
  lemma VersionsNeverFallIff(m: Objects, t: Target)
    ensures (forall states, ops :: IsRun(states, ops) && states[0] == m ==> NeverFalls(states, t)) <==> Sound(Raw(m, t))
  {
    if Sound(Raw(m, t)) {
      forall states, ops | IsRun(states, ops) && states[0] == m ensures NeverFalls(states, t) {
        forall i, j | 0 <= i <= j < |states|
          ensures Advances(states[i], states[j], t) && Raw(states[i], t) <= Raw(states[j], t)
        {
          VersionsOnlyRise(states, ops, 0, i, t);
          VersionsOnlyRise(states, ops, i, j, t);
        }
      }
    } else {
      FallingVersionCounterexample(m, t);
      var states := [m, Did(m, Topmost(t))];
      assert Raw(states[0], t) > Raw(states[1], t);
      assert !NeverFalls(states, t);
    }
  }

  lemma {:induction false} InRangeStays(states: seq<Objects>, ops: seq<Op>, j: nat, t: Target)
    requires IsRun(states, ops) && j <= |ops| && Raw(states[0], t) < U32
    ensures Raw(states[j], t) < U32
  {
    if 0 < j {
      InRangeStays(states, ops, j - 1, t);
      WrittenInRange(states[j - 1], ops[j - 1], t);
    }
  }

  lemma {:induction false} WriteAllInRange(m: Objects, items: seq<Item>, t: Target)
    requires Raw(m, t) < U32
    ensures Raw(WriteAll(m, items), t) < U32
  {
    if items != [] { WriteAllInRange(m, items[..|items| - 1], t); }
  }

  lemma WrittenInRange(m: Objects, op: Op, t: Target)
    requires Raw(m, t) < U32
    ensures Raw(Did(m, op), t) < U32
  {
    if op.BatchOp? {
      WriteAllInRange(m, Sorted(ItemsOf(op.reqs))[..Answered(op.writes, |op.reqs|)], t);
    }
  }

  /** A revert that goes through leaves a version the object has never had before,
      exactly if the run began with a number that fits 32 bits. */
  lemma RevertIsNewest(states: seq<Objects>, ops: seq<Op>, j: nat)
    requires IsRun(states, ops) && j < |ops| && ops[j].RevertOp?
    requires var op := ops[j];
             Reverts(states[j], op.target, op.toRevision, op.historical, op.readFails, op.patch)
    ensures var t := ops[j].target;
            (forall i :: 0 <= i <= j ==> Raw(states[j + 1], t) > Raw(states[i], t)) <==> Raw(states[0], t) < U32
  {
    var t := ops[j].target;
    assert Raw(states[j + 1], t) < U32;
    if Raw(states[0], t) < U32 {
      InRangeStays(states, ops, j, t);
      forall i | 0 <= i <= j ensures Raw(states[j + 1], t) > Raw(states[i], t) {
        InRangeStays(states, ops, i, t);
        VersionsOnlyRise(states, ops, i, j, t);
      }
    }
  }
}
