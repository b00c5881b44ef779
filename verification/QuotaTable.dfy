/**
 The published quota table (rust/konfig/quota.rs, first half).

 A limit of 0 means unlimited.  Several objects may name one identity; the table
 then holds the tightest limit on each axis.  The rebuild walks a hash map, so its
 order is arbitrary: the method below picks any remaining object at each turn.
 */
module QuotaTable {
  import opened Common
  import opened Mirror

  datatype TenantQuota = TenantQuota(maxSubscribers: nat, appliesPerSecond: nat, appliesBurst: nat,
                                     cacheBudgetBytes: nat)

  datatype QuotaEntry = QuotaEntry(identity: string, quota: TenantQuota)

  /** The independent axes of a budget. */
  datatype Axis = Subscribers | ApplyRate | ApplyBurst | CacheBytes

  function Limit(q: TenantQuota, axis: Axis): (n: nat) {
    match axis
    case Subscribers => q.maxSubscribers
    case ApplyRate => q.appliesPerSecond
    case ApplyBurst => q.appliesBurst
    case CacheBytes => q.cacheBudgetBytes
  }

  function Tighter(a: nat, b: nat): (r: nat) {
    if a == 0 then b else if b == 0 then a else if a <= b then a else b
  }

  function MostRestrictive(p: TenantQuota, q: TenantQuota): (r: TenantQuota)
    ensures forall axis :: Limit(r, axis) == Tighter(Limit(p, axis), Limit(q, axis))
  {
    TenantQuota(Tighter(p.maxSubscribers, q.maxSubscribers),
                Tighter(p.appliesPerSecond, q.appliesPerSecond),
                Tighter(p.appliesBurst, q.appliesBurst),
                Tighter(p.cacheBudgetBytes, q.cacheBudgetBytes))
  }

  /** Combining budgets is a commutative idempotent monoid with unit 0. */
  lemma TighterIsMeet(a: nat, b: nat, c: nat)
    ensures Tighter(a, b) == Tighter(b, a)
    ensures Tighter(a, Tighter(b, c)) == Tighter(Tighter(a, b), c)
    ensures Tighter(a, a) == a && Tighter(0, a) == a == Tighter(a, 0)
  {
  }

  /** `r` is the least nonzero limit any of `objects` declares for `identity` on
      `axis`, or 0 if none declares one. */
  ghost predicate IsTightest(objects: map<string, QuotaEntry>, identity: string, axis: Axis, r: nat) {
    && (forall k :: k in objects && objects[k].identity == identity && Limit(objects[k].quota, axis) != 0 ==>
                      0 < r <= Limit(objects[k].quota, axis))
    && (r != 0 ==> exists k :: k in objects && objects[k].identity == identity && Limit(objects[k].quota, axis) == r)
  }

  ghost predicate Named(objects: map<string, QuotaEntry>, identity: string) {
    exists k :: k in objects && objects[k].identity == identity
  }

  /** `table` is the table of `objects`. */
  ghost predicate Publishes(objects: map<string, QuotaEntry>, table: map<string, TenantQuota>) {
    && (forall id :: id in table <==> Named(objects, id))
    && (forall id, axis :: id in table ==> IsTightest(objects, id, axis, Limit(table[id], axis)))
  }

  /** There is only one such table, so the iteration order cannot be observed. */
  lemma PublishedTableIsUnique(objects: map<string, QuotaEntry>,
                               t1: map<string, TenantQuota>, t2: map<string, TenantQuota>)
    requires Publishes(objects, t1) && Publishes(objects, t2)
    ensures t1 == t2
  {
    forall id | id in t1 ensures id in t2 && t1[id] == t2[id] {
      assert Named(objects, id);
      forall axis ensures Limit(t1[id], axis) == Limit(t2[id], axis) {
        TightestIsUnique(objects, id, axis, Limit(t1[id], axis), Limit(t2[id], axis));
      }
      assert Limit(t1[id], Subscribers) == Limit(t2[id], Subscribers);
      assert Limit(t1[id], ApplyRate) == Limit(t2[id], ApplyRate);
      assert Limit(t1[id], ApplyBurst) == Limit(t2[id], ApplyBurst);
      assert Limit(t1[id], CacheBytes) == Limit(t2[id], CacheBytes);
    }
    assert t1.Keys == t2.Keys;
  }

  lemma TightestIsUnique(objects: map<string, QuotaEntry>, id: string, axis: Axis, r1: nat, r2: nat)
    requires IsTightest(objects, id, axis, r1) && IsTightest(objects, id, axis, r2)
    ensures r1 == r2
  {
  }

  /** Folding one more object into the table of the objects seen so far. */
  lemma PublishOneMore(seen: map<string, QuotaEntry>, name: string, entry: QuotaEntry,
                       table: map<string, TenantQuota>, next: map<string, TenantQuota>)
    requires name !in seen && Publishes(seen, table)
    requires next == table[entry.identity :=
      if entry.identity in table then MostRestrictive(table[entry.identity], entry.quota) else entry.quota]
    ensures Publishes(seen[name := entry], next)
  {
    var seen' := seen[name := entry];
    forall id ensures id in next <==> Named(seen', id) {
      if id == entry.identity { assert seen'[name].identity == id; }
      if Named(seen, id) {
        var k :| k in seen && seen[k].identity == id;
        assert seen'[k].identity == id;
      }
    }
    forall id, axis | id in next ensures IsTightest(seen', id, axis, Limit(next[id], axis)) {
      TightestOneMore(seen, name, entry, table, id, axis);
    }
  }

  lemma TightestOneMore(seen: map<string, QuotaEntry>, name: string, entry: QuotaEntry,
                        table: map<string, TenantQuota>, id: string, axis: Axis)
    requires name !in seen && Publishes(seen, table)
    requires id in table || id == entry.identity
    ensures var q := if id != entry.identity then table[id]
                     else if id in table then MostRestrictive(table[id], entry.quota) else entry.quota;
            IsTightest(seen[name := entry], id, axis, Limit(q, axis))
  {
    if id in table {
      TightestStep(seen, name, entry, id, axis, Limit(table[id], axis));
    } else {
      assert !Named(seen, id);
      assert IsTightest(seen, id, axis, 0);
      TightestStep(seen, name, entry, id, axis, 0);
    }
  }

  lemma TightestStep(seen: map<string, QuotaEntry>, name: string, entry: QuotaEntry, id: string, axis: Axis, r: nat)
    requires name !in seen && IsTightest(seen, id, axis, r)
    ensures IsTightest(seen[name := entry], id, axis,
                       if id == entry.identity then Tighter(r, Limit(entry.quota, axis)) else r)
  {
    var seen' := seen[name := entry];
    assert name in seen' && seen'[name] == entry;
    if r != 0 {
      var k :| k in seen && seen[k].identity == id && Limit(seen[k].quota, axis) == r;
      assert k in seen' && seen'[k] == seen[k];
    }
  }

  /** The apply rate and burst in force for an identity.  A zero rate is unlimited; an
      active bucket always has a positive burst, one second's worth unless declared. */
  function EffectiveApplyRate(table: map<string, TenantQuota>, synced: bool, defaultRate: nat, identity: string)
    : (r: (nat, nat))
    ensures r.0 == EffectiveLimit(table, synced, defaultRate, identity, ApplyRate)
    ensures r.0 == 0 <==> r.1 == 0
    ensures r.0 != 0 ==>
              var burst := EffectiveLimit(table, synced, 0, identity, ApplyBurst);
              r.1 == if burst == 0 then r.0 else burst
  {
    var (rate, burst) :=
      if synced && identity in table then (table[identity].appliesPerSecond, table[identity].appliesBurst)
      else (defaultRate, 0);
    if rate == 0 then (0, 0) else (rate, if burst > 0 then burst else if rate >= 1 then rate else 1)
  }

  /** The limit in force on an axis: the table's once it has synced and names the
      identity, even if that is 0; the server's default otherwise. */
  function EffectiveLimit(table: map<string, TenantQuota>, synced: bool, default_: nat, identity: string, axis: Axis)
    : (limit: nat)
  {
    if synced && identity in table then Limit(table[identity], axis) else default_
  }

  /** The concurrent-stream limit handed to admission. */
  function EffectiveSubscriberLimit(table: map<string, TenantQuota>, synced: bool, defaultMax: nat, identity: string)
    : (limit: nat)
    ensures limit == EffectiveLimit(table, synced, defaultMax, identity, Subscribers)
  {
    if synced then if identity in table then table[identity].maxSubscribers else defaultMax
    else defaultMax
  }

  /** The byte budget handed to a cache accountant. */
  function EffectiveCacheBudget(table: map<string, TenantQuota>, synced: bool, defaultBudget: nat, identity: string)
    : (budget: nat)
    ensures budget == EffectiveLimit(table, synced, defaultBudget, identity, CacheBytes)
  {
    if synced then if identity in table then table[identity].cacheBudgetBytes else defaultBudget
    else defaultBudget
  }

  /** The watcher's state: the object mirror, the published table, the sync flag. */
  class QuotaWatcher {
    var objects: map<string, QuotaEntry>
    var table: map<string, TenantQuota>
    var synced: bool

    constructor ()
      ensures objects == map[] && table == map[] && !synced
    {
      objects, table, synced := map[], map[], false;
    }

    /** Rebuilds the table, taking the objects in any order. */
    method Publish()
      modifies this`table
      ensures Publishes(objects, table)
    {
      var next: map<string, TenantQuota> := map[];
      var rest := objects.Keys;
      ghost var seen: map<string, QuotaEntry> := map[];
      while rest != {}
        invariant rest <= objects.Keys
        invariant seen == map k | k in objects && k !in rest :: objects[k]
        invariant Publishes(seen, next)
        decreases |rest|
      {
        var k :| k in rest;
        var entry := objects[k];
        var updated := next[entry.identity :=
          if entry.identity in next then MostRestrictive(next[entry.identity], entry.quota) else entry.quota];
        PublishOneMore(seen, k, entry, next, updated);
        next := updated;
        rest := rest - {k};
        seen := seen[k := entry];
      }
      assert seen == objects;
      table := next;
    }

    /** One event; the answer says whether the table has to be rebuilt. */
    method HandleEvent(e: Event<QuotaEntry>) returns (changed: bool)
      modifies this`objects, this`synced
      ensures objects == Handle(old(objects), e)
      ensures changed == Mutating(e)
      ensures synced == (old(synced) || e.InitDone?)
    {
      changed := Mutating(e);
      match e {
        case Apply(name, Some(x)) => objects := objects[name := x];
        case InitApply(name, Some(x)) => objects := objects[name := x];
        case Apply(name, None) => objects := objects - {name};
        case InitApply(name, None) => objects := objects - {name};
        case Delete(name) => objects := objects - {name};
        case Init =>
        case InitDone => synced := true;
      }
    }

    /** One connection: a fresh mirror, then every event in turn. */
    method Pump(events: seq<Event<QuotaEntry>>)
      modifies this
      ensures objects == Live(events)
      ensures synced == (old(synced) || Completes(events))
      ensures if Changes(events) then Publishes(Live(events), table)
              else table == old(table)
    {
      objects := map[];
      for n := 0 to |events|
        invariant objects == Live(events[..n])
        invariant synced == (old(synced) || Completes(events[..n]))
        invariant if Changes(events[..n]) then Publishes(objects, table) else table == old(table)
      {
        OneMoreEvent(events, n);
        var changed := HandleEvent(events[n]);
        if changed { Publish(); }
      }
      assert events[..|events|] == events;
    }

    /** The reconnect loop from the start, up to any point of the last connection. */
    method Run(conns: seq<seq<Event<QuotaEntry>>>)
      requires table == map[] && !synced
      modifies this
      ensures Publishes(Live(InForce(conns)), table) && synced == SyncedBy(conns)
    {
      for n := 0 to |conns|
        invariant Publishes(Live(InForce(conns[..n])), table) && synced == SyncedBy(conns[..n])
      {
        assert conns[..n + 1][..n] == conns[..n];
        Pump(conns[n]);
      }
      assert conns[..|conns|] == conns;
    }
  }

  ghost predicate NamedByLatest(events: seq<Event<QuotaEntry>>, id: string) {
    exists name, x :: Latest(events, name, x) && x.identity == id
  }

  /** `r` is the least nonzero limit among the latest versions of the objects naming the
      identity, or 0 if they declare none. */
  ghost predicate TightestOfLatest(events: seq<Event<QuotaEntry>>, id: string, axis: Axis, r: nat) {
    && (forall name, x :: Latest(events, name, x) && x.identity == id && Limit(x.quota, axis) != 0 ==>
                            0 < r <= Limit(x.quota, axis))
    && (r != 0 ==> exists name, x :: Latest(events, name, x) && x.identity == id && Limit(x.quota, axis) == r)
  }

  /** Read through the event history: after any events of one connection, a table
      published from them bounds an identity by the least nonzero limit among the
      latest parseable versions of the objects naming it. */
  lemma QuotaIsTightestOfLatest(events: seq<Event<QuotaEntry>>, table: map<string, TenantQuota>, id: string, axis: Axis)
    requires Publishes(Live(events), table)
    ensures id in table <==> NamedByLatest(events, id)
    ensures id in table ==> TightestOfLatest(events, id, axis, Limit(table[id], axis))
  {
    forall name, x: QuotaEntry
      ensures Latest(events, name, x) <==> name in Live(events) && Live(events)[name] == x
    {
      MirrorIsLatest(events, name, x);
    }
    if id in table {
      var k :| k in Live(events) && Live(events)[k].identity == id;
      assert Latest(events, k, Live(events)[k]);
      var r := Limit(table[id], axis);
      if r != 0 {
        var k' :| k' in Live(events) && Live(events)[k'].identity == id && Limit(Live(events)[k'].quota, axis) == r;
        assert Latest(events, k', Live(events)[k']);
      }
    }
  }

  /** End to end, over any run of connections: once synced, a tenant named by some live
      object of the last connection that changed anything is held to the least nonzero
      limit any latest version there declares for it, or to none; any other tenant, and
      every tenant before the first sync, to the server's default. */
  lemma EffectiveLimitFollowsObjects(conns: seq<seq<Event<QuotaEntry>>>, table: map<string, TenantQuota>,
                                     default_: nat, id: string, axis: Axis)
    requires Publishes(Live(InForce(conns)), table)
    ensures var limit := EffectiveLimit(table, SyncedBy(conns), default_, id, axis);
            if SyncedBy(conns) && NamedByLatest(InForce(conns), id)
            then TightestOfLatest(InForce(conns), id, axis, limit)
            else limit == default_
  {
    QuotaIsTightestOfLatest(InForce(conns), table, id, axis);
  }

  lemma TightestOfLatestIsUnique(events: seq<Event<QuotaEntry>>, id: string, axis: Axis, r: nat, r': nat)
    requires TightestOfLatest(events, id, axis, r) && TightestOfLatest(events, id, axis, r')
    ensures r == r'
  {
  }

  /** A tenant keeps its limit while the next connection has delivered `events` exactly if
      nothing has arrived, or what has arrived gives it that same limit: the relist
      replaces the whole table at its first object, and the flag stays set. */
  lemma LimitSurvivesRelistIff(conns: seq<seq<Event<QuotaEntry>>>, events: seq<Event<QuotaEntry>>,
                               before: map<string, TenantQuota>, now: map<string, TenantQuota>,
                               default_: nat, id: string, axis: Axis)
    requires Publishes(Live(InForce(conns)), before) && SyncedBy(conns)
    requires Publishes(Live(InForce(conns + [events])), now)
    ensures var was := EffectiveLimit(before, SyncedBy(conns), default_, id, axis);
            EffectiveLimit(now, SyncedBy(conns + [events]), default_, id, axis) == was <==>
            || !Changes(events)
            || (if NamedByLatest(events, id) then TightestOfLatest(events, id, axis, was) else was == default_)
  {
    assert (conns + [events])[..|conns|] == conns;
    var was := EffectiveLimit(before, SyncedBy(conns), default_, id, axis);
    EffectiveLimitFollowsObjects(conns + [events], now, default_, id, axis);
    if !Changes(events) {
      PublishedTableIsUnique(Live(InForce(conns)), before, now);
    } else if NamedByLatest(events, id) && TightestOfLatest(events, id, axis, was) {
      TightestOfLatestIsUnique(events, id, axis, was, EffectiveLimit(now, true, default_, id, axis));
    }
  }

  /** The objects of two tenants listed completely, and a relist that has named only the
      second one so far. */
  function ListedBoth(a: QuotaEntry, b: QuotaEntry): (events: seq<Event<QuotaEntry>>) {
    [Init, InitApply("a", Some(a)), InitApply("b", Some(b)), InitDone]
  }

  function RelistedOne(b: QuotaEntry): (events: seq<Event<QuotaEntry>>) {
    [Init, InitApply("b", Some(b))]
  }

  lemma ListedBothInForce(a: QuotaEntry, b: QuotaEntry)
    ensures var conns := [ListedBoth(a, b)]; SyncedBy(conns) && InForce(conns) == ListedBoth(a, b)
    ensures var conns := [ListedBoth(a, b), RelistedOne(b)]; SyncedBy(conns) && InForce(conns) == RelistedOne(b)
  {
    var first, again := ListedBoth(a, b), RelistedOne(b);
    assert first[3].InitDone? && Mutating(first[1]) && Mutating(again[1]);
    assert Completes(first) && Changes(first) && Changes(again);
    assert [first, again][..1] == [first];
  }

  /** It does get lost: the first tenant falls from its own limit to the server's default,
      so with 5 subscribers declared and no default it becomes unlimited. */
  lemma RelistLiftsLimitCounterexample(a: QuotaEntry, b: QuotaEntry, before: map<string, TenantQuota>,
                                       now: map<string, TenantQuota>, default_: nat, axis: Axis)
    requires a.identity != b.identity
    requires Publishes(Live(InForce([ListedBoth(a, b)])), before)
    requires Publishes(Live(InForce([ListedBoth(a, b), RelistedOne(b)])), now)
    ensures EffectiveLimit(before, SyncedBy([ListedBoth(a, b)]), default_, a.identity, axis) == Limit(a.quota, axis)
    ensures EffectiveLimit(now, SyncedBy([ListedBoth(a, b), RelistedOne(b)]), default_, a.identity, axis) == default_
  {
    var first, again := ListedBoth(a, b), RelistedOne(b);
    ListedBothInForce(a, b);
    EffectiveLimitFollowsObjects([first], before, default_, a.identity, axis);
    EffectiveLimitFollowsObjects([first, again], now, default_, a.identity, axis);
    assert LastWord(first, 1, "a", a) && Latest(first, "a", a);
    forall name, x | Latest(first, name, x) && x.identity == a.identity ensures x == a {
      var i :| LastWord(first, i, name, x);
    }
    forall name, x | Latest(again, name, x) ensures x == b {
      var i :| LastWord(again, i, name, x);
    }
  }

  // ── The same, field by field ───────────────────────────────────────────────

  /** The stream limit in force is the least nonzero `maxSubscribers` of the latest objects
      naming the tenant, or the default. */
  lemma SubscriberLimitFollowsObjects(conns: seq<seq<Event<QuotaEntry>>>, table: map<string, TenantQuota>,
                                      default_: nat, id: string)
    requires Publishes(Live(InForce(conns)), table)
    ensures var limit, events := EffectiveSubscriberLimit(table, SyncedBy(conns), default_, id), InForce(conns);
            if !SyncedBy(conns) || !NamedByLatest(events, id) then limit == default_
            else
              && (forall name, x :: Latest(events, name, x) && x.identity == id && x.quota.maxSubscribers != 0 ==>
                                      0 < limit <= x.quota.maxSubscribers)
              && (limit != 0 ==>
                    exists name, x :: Latest(events, name, x) && x.identity == id && x.quota.maxSubscribers == limit)
  {
    EffectiveLimitFollowsObjects(conns, table, default_, id, Subscribers);
    assert forall x: QuotaEntry :: Limit(x.quota, Subscribers) == x.quota.maxSubscribers;
  }

  /** The cache budget in force is the least nonzero `cacheBudgetBytes` of them. */
  lemma CacheBudgetFollowsObjects(conns: seq<seq<Event<QuotaEntry>>>, table: map<string, TenantQuota>,
                                  default_: nat, id: string)
    requires Publishes(Live(InForce(conns)), table)
    ensures var budget, events := EffectiveCacheBudget(table, SyncedBy(conns), default_, id), InForce(conns);
            if !SyncedBy(conns) || !NamedByLatest(events, id) then budget == default_
            else
              && (forall name, x :: Latest(events, name, x) && x.identity == id && x.quota.cacheBudgetBytes != 0 ==>
                                      0 < budget <= x.quota.cacheBudgetBytes)
              && (budget != 0 ==>
                    exists name, x :: Latest(events, name, x) && x.identity == id && x.quota.cacheBudgetBytes == budget)
  {
    EffectiveLimitFollowsObjects(conns, table, default_, id, CacheBytes);
    assert forall x: QuotaEntry :: Limit(x.quota, CacheBytes) == x.quota.cacheBudgetBytes;
  }
}
