/**
 Per-tenant cache byte accounting (rust/konfig/tenant_cache.rs).

 A tenant's view is kept in three structures that must agree: a map from key to
 slot, an ordered index from tick to key, and a running byte total.  The class
 `TenantView` keeps them in place; the specification is one recency list, oldest
 entry first, and everything promised about eviction is proved about that list.
 */
module TenantCache {
  import opened Common

  /** `kind` keeps a config and a secret of the same namespace and name apart. */
  datatype Key = Key(kind: string, namespace: string, name: string)

  datatype Slot = Slot(bytes: nat, tick: nat)

  datatype Entry = Entry(key: Key, bytes: nat)

  // ── Specification: the recency list ────────────────────────────────────────

  function Bytes(v: seq<Entry>): (n: nat) {
    if v == [] then 0 else v[0].bytes + Bytes(v[1..])
  }

  function Without(v: seq<Entry>, key: Key): (r: seq<Entry>) {
    if v == [] then []
    else if v[0].key == key then Without(v[1..], key)
    else [v[0]] + Without(v[1..], key)
  }

  function Touched(v: seq<Entry>, e: Entry): (r: seq<Entry>) {
    Without(v, e.key) + [e]
  }

  /** A view that eviction leaves alone; a zero budget is unlimited. */
  predicate Fits(v: seq<Entry>, budget: nat) {
    budget == 0 || Bytes(v) <= budget || |v| <= 1
  }

  function Evicted(v: seq<Entry>, budget: nat): (r: seq<Entry>) {
    if Fits(v, budget) then v else Evicted(v[1..], budget)
  }

  /** One serve.  `None` is the permissive mode: account, never evict. */
  function Served(v: seq<Entry>, e: Entry, budget: Option<nat>): (r: seq<Entry>) {
    match budget
    case None => Touched(v, e)
    case Some(b) => Evicted(Touched(v, e), b)
  }

  ghost predicate IsSuffix(a: seq<Entry>, b: seq<Entry>) {
    |a| <= |b| && b[|b| - |a|..] == a
  }

  // ── The two indices represent one recency list ─────────────────────────────

  /** One line of the ledger as both indices see it. */
  datatype Row = Row(tick: nat, key: Key, bytes: nat)

  /** Ticks strictly increase within `lo..hi` and no key occurs twice. */
  ghost predicate Ordered(rows: seq<Row>, lo: nat, hi: nat) {
    if rows == [] then lo <= hi
    else
      && lo <= rows[0].tick < hi
      && rows[0].key !in KeyIndex(rows[1..])
      && Ordered(rows[1..], rows[0].tick + 1, hi)
  }

  ghost function KeyIndex(rows: seq<Row>): (m: map<Key, Slot>) {
    if rows == [] then map[] else KeyIndex(rows[1..])[rows[0].key := Slot(rows[0].bytes, rows[0].tick)]
  }

  ghost function TickIndex(rows: seq<Row>): (m: map<nat, Key>) {
    if rows == [] then map[] else TickIndex(rows[1..])[rows[0].tick := rows[0].key]
  }

  /** The recency list itself: the rows, oldest first, without their ticks. */
  ghost function Recency(rows: seq<Row>): (v: seq<Entry>)
    ensures |v| == |rows|
  {
    if rows == [] then [] else [Entry(rows[0].key, rows[0].bytes)] + Recency(rows[1..])
  }

  ghost function DropKey(rows: seq<Row>, key: Key): (r: seq<Row>) {
    if rows == [] then []
    else if rows[0].key == key then DropKey(rows[1..], key)
    else [rows[0]] + DropKey(rows[1..], key)
  }

  lemma {:induction false} TicksWithin(rows: seq<Row>, lo: nat, hi: nat)
    requires Ordered(rows, lo, hi)
    ensures forall t :: t in TickIndex(rows) ==> lo <= t < hi
    ensures forall k :: k in KeyIndex(rows) ==> lo <= KeyIndex(rows)[k].tick < hi
  {
    if rows != [] { TicksWithin(rows[1..], rows[0].tick + 1, hi); }
  }

  /** The hash map and the tick index are inverse to each other. */
  lemma {:induction false} IndicesInverse(rows: seq<Row>, lo: nat, hi: nat)
    requires Ordered(rows, lo, hi)
    ensures forall k :: k in KeyIndex(rows) ==>
                          KeyIndex(rows)[k].tick in TickIndex(rows) && TickIndex(rows)[KeyIndex(rows)[k].tick] == k
    ensures forall t :: t in TickIndex(rows) ==>
                          TickIndex(rows)[t] in KeyIndex(rows) && KeyIndex(rows)[TickIndex(rows)[t]].tick == t
  {
    if rows != [] {
      IndicesInverse(rows[1..], rows[0].tick + 1, hi);
      TicksWithin(rows[1..], rows[0].tick + 1, hi);
    }
  }

  /** Both indices have exactly one entry per row. */
  lemma {:induction false} IndexSizes(rows: seq<Row>, lo: nat, hi: nat)
    requires Ordered(rows, lo, hi)
    ensures |KeyIndex(rows)| == |TickIndex(rows)| == |rows|
  {
    if rows != [] {
      IndexSizes(rows[1..], rows[0].tick + 1, hi);
      TicksWithin(rows[1..], rows[0].tick + 1, hi);
      assert KeyIndex(rows).Keys == KeyIndex(rows[1..]).Keys + {rows[0].key};
      assert TickIndex(rows).Keys == TickIndex(rows[1..]).Keys + {rows[0].tick};
    }
  }

  lemma {:induction false} AbsentKey(rows: seq<Row>, key: Key)
    requires key !in KeyIndex(rows)
    ensures DropKey(rows, key) == rows
    ensures Without(Recency(rows), key) == Recency(rows)
  {
    if rows != [] {
      AbsentKey(rows[1..], key);
      assert Recency(rows)[1..] == Recency(rows[1..]);
    }
  }

  /** Removing one key from both indices removes its row, and only its row. */
  lemma {:induction false} PresentKey(rows: seq<Row>, key: Key, lo: nat, hi: nat)
    requires Ordered(rows, lo, hi) && key in KeyIndex(rows)
    ensures Ordered(DropKey(rows, key), lo, hi)
    ensures KeyIndex(DropKey(rows, key)) == KeyIndex(rows) - {key}
    ensures TickIndex(DropKey(rows, key)) == TickIndex(rows) - {KeyIndex(rows)[key].tick}
  {
    var rest := rows[1..];
    TicksWithin(rest, rows[0].tick + 1, hi);
    if rows[0].key == key {
      AbsentKey(rest, key);
      WeakenOrdered(rest, rows[0].tick + 1, lo, hi);
      assert KeyIndex(rows) - {key} == KeyIndex(rest);
      assert TickIndex(rows) - {rows[0].tick} == TickIndex(rest);
    } else {
      PresentKey(rest, key, rows[0].tick + 1, hi);
      var kept := DropKey(rest, key);
      assert DropKey(rows, key) == [rows[0]] + kept && ([rows[0]] + kept)[1..] == kept;
      assert KeyIndex(rows) - {key} == KeyIndex(kept)[rows[0].key := Slot(rows[0].bytes, rows[0].tick)];
      assert TickIndex(rows) - {KeyIndex(rest)[key].tick} == TickIndex(kept)[rows[0].tick := rows[0].key];
    }
  }

  /** ... and takes exactly that row's bytes off the total. */
  lemma {:induction false} PresentBytes(rows: seq<Row>, key: Key, lo: nat, hi: nat)
    requires Ordered(rows, lo, hi) && key in KeyIndex(rows)
    ensures Recency(DropKey(rows, key)) == Without(Recency(rows), key)
    ensures Bytes(Recency(rows)) == Bytes(Without(Recency(rows), key)) + KeyIndex(rows)[key].bytes
  {
    var rest := rows[1..];
    assert Recency(rows)[1..] == Recency(rest);
    if rows[0].key == key {
      AbsentKey(rest, key);
    } else {
      PresentBytes(rest, key, rows[0].tick + 1, hi);
      assert DropKey(rows, key)[1..] == DropKey(rest, key);
      assert Without(Recency(rows), key)[1..] == Without(Recency(rest), key);
    }
  }

  lemma WeakenOrdered(rows: seq<Row>, lo: nat, lo': nat, hi: nat)
    requires Ordered(rows, lo, hi) && lo' <= lo
    ensures Ordered(rows, lo', hi)
  {
  }

  /** Inserting a fresh key at the next tick appends it to the list. */
  lemma {:induction false} FreshKey(rows: seq<Row>, e: Entry, lo: nat, hi: nat)
    requires Ordered(rows, lo, hi) && e.key !in KeyIndex(rows)
    ensures var rows' := rows + [Row(hi, e.key, e.bytes)];
            && Ordered(rows', lo, hi + 1)
            && KeyIndex(rows') == KeyIndex(rows)[e.key := Slot(e.bytes, hi)]
            && TickIndex(rows') == TickIndex(rows)[hi := e.key]
            && Recency(rows') == Recency(rows) + [e]
  {
    var row := Row(hi, e.key, e.bytes);
    if rows == [] {
      assert rows + [row] == [row];
    } else {
      FreshKey(rows[1..], e, rows[0].tick + 1, hi);
      assert (rows + [row])[1..] == rows[1..] + [row];
      TicksWithin(rows[1..], rows[0].tick + 1, hi);
    }
  }

  lemma {:induction false} BytesConcat(a: seq<Entry>, b: seq<Entry>)
    ensures Bytes(a + b) == Bytes(a) + Bytes(b)
  {
    if a == [] {
      assert a + b == b;
    } else {
      assert (a + b)[1..] == a[1..] + b;
      BytesConcat(a[1..], b);
    }
  }

  /** One tenant's accounting view, updated in place. */
  class TenantView {
    var byKey: map<Key, Slot>
    var byTick: map<nat, Key>
    var total: nat
    var nextTick: nat
    ghost var rows: seq<Row>

    ghost predicate Valid()
      reads this
    {
      && Ordered(rows, 0, nextTick)
      && byKey == KeyIndex(rows)
      && byTick == TickIndex(rows)
      && total == Bytes(Recency(rows))
    }

    ghost function View(): (v: seq<Entry>)
      reads this
    {
      Recency(rows)
    }

    constructor ()
      ensures Valid() && View() == []
    {
      byKey, byTick, total, nextTick := map[], map[], 0, 0;
      rows := [];
    }

    method Touch(key: Key, bytes: nat)
      requires Valid()
      modifies this
      ensures Valid()
      ensures View() == Touched(old(View()), Entry(key, bytes))
    {
      ghost var e, kept := Entry(key, bytes), byKey - {key};
      if key in byKey {
        var prev := byKey[key];
        PresentKey(rows, key, 0, nextTick);
        PresentBytes(rows, key, 0, nextTick);
        byTick := byTick - {prev.tick};
        total := total - prev.bytes;
      } else {
        AbsentKey(rows, key);
        assert kept == byKey;
      }
      rows := DropKey(rows, key);
      FreshKey(rows, e, 0, nextTick);
      BytesConcat(Recency(rows), [e]);
      var tick := nextTick;
      nextTick := nextTick + 1;
      byTick := byTick[tick := key];
      byKey := byKey[key := Slot(bytes, tick)];
      assert byKey == kept[key := Slot(bytes, tick)];
      total := total + bytes;
      rows := rows + [Row(tick, key, bytes)];
    }

    method EvictTo(budget: nat) returns (evicted: nat)
      requires Valid()
      modifies this
      ensures Valid()
      ensures View() == Evicted(old(View()), budget)
      ensures evicted == |old(View())| - |View()|
    {
      evicted := 0;
      if budget == 0 { return; }
      IndexSizes(rows, 0, nextTick);
      while total > budget && |byKey| > 1
        invariant Valid() && |byKey| == |rows|
        invariant evicted == |old(View())| - |View()|
        invariant Evicted(View(), budget) == Evicted(old(View()), budget)
        decreases |rows|
      {
        var tick := Oldest();
        var key := byTick[tick];
        PopOldest(rows, 0, nextTick);
        byTick := byTick - {tick};
        total := total - byKey[key].bytes;
        byKey := byKey - {key};
        rows := rows[1..];
        evicted := evicted + 1;
        IndexSizes(rows, 0, nextTick);
      }
    }

    /** One serve under the view's lock: touch, then evict if a budget is enforced. */
    method Charge(key: Key, bytes: nat, evictBudget: Option<nat>) returns (total': nat, evicted: nat)
      requires Valid()
      modifies this
      ensures Valid()
      ensures View() == Served(old(View()), Entry(key, bytes), evictBudget)
      ensures total' == Bytes(View())
      ensures evicted == |Touched(old(View()), Entry(key, bytes))| - |View()|
    {
      Touch(key, bytes);
      evicted := 0;
      match evictBudget {
        case Some(budget) => evicted := EvictTo(budget);
        case None =>
      }
      total' := total;
    }

    /** The smallest tick of the ordered index: the least recently served entry. */
    method Oldest() returns (tick: nat)
      requires Valid() && rows != []
      ensures tick == rows[0].tick && tick in byTick
    {
      OldestTick(rows, 0, nextTick);
      tick :| tick in byTick && forall t :: t in byTick ==> tick <= t;
    }
  }

  lemma OldestTick(rows: seq<Row>, lo: nat, hi: nat)
    requires rows != [] && Ordered(rows, lo, hi)
    ensures rows[0].tick in TickIndex(rows)
    ensures forall t :: t in TickIndex(rows) ==> rows[0].tick <= t
  {
    TicksWithin(rows[1..], rows[0].tick + 1, hi);
  }

  lemma PopOldest(rows: seq<Row>, lo: nat, hi: nat)
    requires rows != [] && Ordered(rows, lo, hi)
    ensures Ordered(rows[1..], lo, hi)
    ensures KeyIndex(rows)[rows[0].key] == Slot(rows[0].bytes, rows[0].tick)
    ensures TickIndex(rows)[rows[0].tick] == rows[0].key
    ensures KeyIndex(rows) - {rows[0].key} == KeyIndex(rows[1..])
    ensures TickIndex(rows) - {rows[0].tick} == TickIndex(rows[1..])
    ensures Recency(rows)[1..] == Recency(rows[1..])
    ensures Bytes(Recency(rows)) == rows[0].bytes + Bytes(Recency(rows[1..]))
  {
    WeakenOrdered(rows[1..], rows[0].tick + 1, lo, hi);
    TicksWithin(rows[1..], rows[0].tick + 1, hi);
  }

  /** The per-identity ledger: one view for each tenant ever served. */
  class TenantCacheLedger {
    var views: map<string, TenantView>

    ghost predicate Valid()
      reads this, views.Values
    {
      && (forall id :: id in views ==> views[id].Valid())
      && (forall a, b :: a in views && b in views && a != b ==> views[a] != views[b])
    }

    /** The recency list charged to `identity`; empty if it was never served. */
    ghost function ViewOf(identity: string): (v: seq<Entry>)
      reads this, views.Values
    {
      if identity in views then views[identity].View() else []
    }

    constructor ()
      ensures Valid() && forall id :: ViewOf(id) == []
    {
      views := map[];
    }

    /** Charges one serve to `identity` alone; every other tenant's view is untouched. */
    method Record(identity: string, key: Key, bytes: nat, evictBudget: Option<nat>)
      returns (total: nat, evicted: nat)
      requires Valid()
      modifies this, views.Values
      ensures Valid() && fresh(views.Values - old(views.Values))
      ensures ViewOf(identity) == Served(old(ViewOf(identity)), Entry(key, bytes), evictBudget)
      ensures forall id :: id != identity ==> ViewOf(id) == old(ViewOf(id))
      ensures total == Bytes(ViewOf(identity))
      ensures evicted == |Touched(old(ViewOf(identity)), Entry(key, bytes))| - |ViewOf(identity)|
    {
      var view := EntryOrDefault(identity);
      total, evicted := view.Charge(key, bytes, evictBudget);
    }

    /** The view of `identity`, created empty on its first serve. */
    method EntryOrDefault(identity: string) returns (view: TenantView)
      requires Valid()
      modifies this
      ensures view.Valid() && view.View() == old(ViewOf(identity))
      ensures identity in old(views) ==> view == old(views[identity]) && views == old(views)
      ensures identity !in old(views) ==> fresh(view) && views == old(views)[identity := view]
    {
      if identity !in views {
        var empty := new TenantView();
        views := views[identity := empty];
      }
      view := views[identity];
    }
  }

  /** Attributes the serves of one RPC; the budget was resolved when it started. */
  class CacheAccountant {
    const ledger: TenantCacheLedger
    const identity: string
    const mode: Mode
    const budget: nat
    const kind: string

    constructor (ledger: TenantCacheLedger, identity: string, mode: Mode, budget: nat, kind: string)
      ensures this.ledger == ledger && this.identity == identity && this.mode == mode
      ensures this.budget == budget && this.kind == kind
    {
      this.ledger, this.identity, this.mode, this.budget, this.kind := ledger, identity, mode, budget, kind;
    }

    method Record(namespace: string, name: string, bytes: nat)
      requires ledger.Valid()
      modifies ledger, ledger.views.Values
      ensures ledger.Valid()
      ensures forall id :: id != identity ==> ledger.ViewOf(id) == old(ledger.ViewOf(id))
      ensures var touched := Touched(old(ledger.ViewOf(identity)), Entry(Key(kind, namespace, name), bytes));
              ledger.ViewOf(identity) == if mode == Enforce then Evicted(touched, budget) else touched
    {
      var evictBudget := if mode == Enforce then Some(budget) else None;
      var _, _ := ledger.Record(identity, Key(kind, namespace, name), bytes, evictBudget);
    }
  }

  // ── What eviction promises ─────────────────────────────────────────────────

  /** Eviction drops the shortest prefix whose removal makes the rest fit. */
  lemma {:induction false} EvictionIsShortest(v: seq<Entry>, budget: nat, n: nat)
    requires n <= |v|
    ensures Evicted(v, budget) == v[n..] <==>
            Fits(v[n..], budget) && forall m :: 0 <= m < n ==> !Fits(v[m..], budget)
  {
    EvictedSuffix(v, budget);
    assert v[0..] == v;
    if !Fits(v, budget) {
      EvictedSuffix(v[1..], budget);
      if 0 < n {
        EvictionIsShortest(v[1..], budget, n - 1);
        assert v[1..][n - 1..] == v[n..];
        assert forall m :: 0 < m < n ==> v[1..][m - 1..] == v[m..];
        assert forall m :: 0 <= m < n - 1 ==> v[1..][m..] == v[m + 1..];
      }
    }
  }

  lemma {:induction false} EvictedSuffix(v: seq<Entry>, budget: nat)
    ensures IsSuffix(Evicted(v, budget), v)
    ensures Fits(Evicted(v, budget), budget)
    ensures v != [] ==> Evicted(v, budget) != []
  {
    if !Fits(v, budget) {
      EvictedSuffix(v[1..], budget);
      SuffixTrans(Evicted(v, budget), v[1..], v);
    }
  }

  lemma SuffixTrans(a: seq<Entry>, b: seq<Entry>, c: seq<Entry>)
    requires IsSuffix(a, b) && IsSuffix(b, c)
    ensures IsSuffix(a, c)
  {
    assert c[|c| - |a|..] == c[|c| - |b|..][|b| - |a|..];
  }

  /** After an enforced serve the entry just served is still the newest one, and
      the view is within budget unless that entry alone exceeds it. */
  lemma ServeRespectsBudget(v: seq<Entry>, e: Entry, budget: nat)
    ensures var r := Served(v, e, Some(budget));
            && r != [] && r[|r| - 1] == e
            && (0 < budget ==> Bytes(r) <= budget || r == [e])
  {
    EvictedSuffix(Touched(v, e), budget);
  }

  // ── LRU inclusion ──────────────────────────────────────────────────────────

  datatype Serve = Serve(entry: Entry, budget: Option<nat>)

  function Run(serves: seq<Serve>): (v: seq<Entry>) {
    if serves == [] then []
    else
      var n := |serves| - 1;
      Served(Run(serves[..n]), serves[n].entry, serves[n].budget)
  }

  predicate NoTighter(loose: Option<nat>, tight: Option<nat>) {
    match loose
    case None => true
    case Some(l) => l == 0 || (tight.Some? && 0 < tight.value <= l)
  }

  /** Two tenants are served the same trace; at every serve the second one's
      budget is at least the first one's.  Whatever the first view holds, the
      second holds too, in the same order and as its most recent part. */
  lemma {:induction false} LruInclusion(tight: seq<Serve>, loose: seq<Serve>)
    requires |tight| == |loose|
    requires forall i :: 0 <= i < |tight| ==>
               tight[i].entry == loose[i].entry && NoTighter(loose[i].budget, tight[i].budget)
    ensures IsSuffix(Run(tight), Run(loose))
  {
    if tight != [] {
      var n := |tight| - 1;
      LruInclusion(tight[..n], loose[..n]);
      InclusionStep(Run(tight[..n]), Run(loose[..n]), tight[n].entry, tight[n].budget, loose[n].budget);
    }
  }

  lemma InclusionStep(a: seq<Entry>, b: seq<Entry>, e: Entry, tight: Option<nat>, loose: Option<nat>)
    requires IsSuffix(a, b) && NoTighter(loose, tight)
    ensures IsSuffix(Served(a, e, tight), Served(b, e, loose))
  {
    var p := b[..|b| - |a|];
    assert b == p + a;
    WithoutConcat(p, a, e.key);
    var a', b' := Touched(a, e), Touched(b, e);
    assert b' == Without(p, e.key) + a';
    if tight.Some? { EvictedSuffix(a', tight.value); }
    if loose.Some? && loose.value != 0 {
      EvictionMonotone(a', b', tight.value, loose.value);
    } else if tight.Some? {
      SuffixTrans(Evicted(a', tight.value), a', b');
    }
  }

  lemma {:induction false} WithoutConcat(a: seq<Entry>, b: seq<Entry>, key: Key)
    ensures Without(a + b, key) == Without(a, key) + Without(b, key)
  {
    if a == [] {
      assert a + b == b;
    } else {
      assert (a + b)[1..] == a[1..] + b;
      WithoutConcat(a[1..], b, key);
    }
  }

  lemma {:induction false} EvictionMonotone(a: seq<Entry>, b: seq<Entry>, tight: nat, loose: nat)
    requires IsSuffix(a, b) && a != [] && 0 < tight <= loose
    ensures IsSuffix(Evicted(a, tight), Evicted(b, loose))
    decreases |b|
  {
    if Fits(b, loose) {
      EvictedSuffix(a, tight);
      SuffixTrans(Evicted(a, tight), a, b);
    } else if |a| < |b| {
      assert b[1..][|b| - 1 - |a|..] == b[|b| - |a|..];
      EvictionMonotone(a, b[1..], tight, loose);
    } else {
      EvictionMonotone(a[1..], b[1..], tight, loose);
    }
  }

  // ── Eviction is exact while no entry shrinks ───────────────────────────────

  /** No key is served at a smaller size than before. */
  ghost predicate NeverShrinks(entries: seq<Entry>) {
    forall i, j :: 0 <= i < j < |entries| && entries[i].key == entries[j].key ==> entries[i].bytes <= entries[j].bytes
  }

  function ServeAll(entries: seq<Entry>, budget: Option<nat>): (v: seq<Entry>) {
    if entries == [] then []
    else Served(ServeAll(entries[..|entries| - 1], budget), entries[|entries| - 1], budget)
  }

  /** Evicting along the way loses nothing that would still fit at the end: while
      no key shrinks, the view under a budget is the longest recent part of the
      unlimited view that fits. */
  lemma {:induction false} EvictionIsExact(entries: seq<Entry>, budget: nat)
    requires NeverShrinks(entries)
    ensures ServeAll(entries, Some(budget)) == Evicted(ServeAll(entries, None), budget)
  {
    if entries != [] {
      var n := |entries| - 1;
      EvictionIsExact(entries[..n], budget);
      var u := ServeAll(entries[..n], None);
      UnlimitedView(entries[..n]);
      ExactStep(u, entries[n], budget);
    }
  }

  /** The unlimited view holds each key once, at a size it was served at. */
  lemma {:induction false} UnlimitedView(entries: seq<Entry>)
    ensures NoDup(ServeAll(entries, None))
    ensures forall x :: x in ServeAll(entries, None) ==> x in entries
  {
    if entries != [] {
      var n := |entries| - 1;
      UnlimitedView(entries[..n]);
      WithoutNoDup(ServeAll(entries[..n], None), entries[n].key);
      AppendNoDup(Without(ServeAll(entries[..n], None), entries[n].key), entries[n]);
    }
  }

  ghost predicate NoDup(v: seq<Entry>) {
    v == [] || (Lacks(v[1..], v[0].key) && NoDup(v[1..]))
  }

  ghost predicate Lacks(v: seq<Entry>, key: Key) {
    forall x :: x in v ==> x.key != key
  }

  lemma {:induction false} WithoutNoDup(v: seq<Entry>, key: Key)
    ensures forall x :: x in Without(v, key) <==> x in v && x.key != key
    ensures NoDup(v) ==> NoDup(Without(v, key))
    ensures Lacks(v, key) ==> Without(v, key) == v
  {
    if v != [] {
      WithoutNoDup(v[1..], key);
      if v[0].key != key {
        assert Without(v, key)[1..] == Without(v[1..], key);
      }
    }
  }

  lemma {:induction false} AppendNoDup(v: seq<Entry>, e: Entry)
    requires NoDup(v) && Lacks(v, e.key)
    ensures NoDup(v + [e])
  {
    if v == [] {
      assert v + [e] == [e];
    } else {
      AppendNoDup(v[1..], e);
      assert (v + [e])[1..] == v[1..] + [e];
    }
  }

  lemma {:induction false} NoDupParts(a: seq<Entry>, b: seq<Entry>)
    requires NoDup(a + b)
    ensures NoDup(b)
    ensures forall x, y :: x in a && y in b ==> x.key != y.key
  {
    if a == [] {
      assert a + b == b;
    } else {
      assert (a + b)[1..] == a[1..] + b;
      NoDupParts(a[1..], b);
    }
  }

  lemma {:induction false} WithoutBytes(v: seq<Entry>, e: Entry)
    requires NoDup(v) && NoLarger(v, e)
    ensures Bytes(v) <= Bytes(Without(v, e.key)) + e.bytes
  {
    if v != [] {
      WithoutNoDup(v[1..], e.key);
      if v[0].key != e.key {
        WithoutBytes(v[1..], e);
      } else {
        assert v[0] in v;
      }
    }
  }

  /** The view holds the key of `e`, if at all, at no larger a size. */
  ghost predicate NoLarger(v: seq<Entry>, e: Entry) {
    forall x :: x in v && x.key == e.key ==> x.bytes <= e.bytes
  }

  lemma ExactStep(u: seq<Entry>, e: Entry, budget: nat)
    requires NoDup(u) && NoLarger(u, e)
    ensures Served(Evicted(u, budget), e, Some(budget)) == Evicted(Touched(u, e), budget)
  {
    EvictedSuffix(u, budget);
    var p := FrontOf(Evicted(u, budget), u);
    ExactSplit(p, Evicted(u, budget), e, budget);
  }

  lemma FrontOf(v: seq<Entry>, u: seq<Entry>) returns (p: seq<Entry>)
    requires IsSuffix(v, u)
    ensures u == p + v
  {
    p := u[..|u| - |v|];
  }

  lemma ExactSplit(p: seq<Entry>, v: seq<Entry>, e: Entry, budget: nat)
    requires NoDup(p + v) && NoLarger(p + v, e) && v == Evicted(p + v, budget)
    ensures Evicted(Touched(v, e), budget) == Evicted(Touched(p + v, e), budget)
  {
    if Without(p, e.key) != [] {
      LastDropped(p, v, budget);
      StillTooBig(p, v, e, budget);
    }
    ExactServeIff(p, v, e, budget);
  }

  /** One serve of a view `v` from which `p` was evicted.  It ends where evicting
      only now would end exactly if no evicted entry comes back: the newest of them
      that the serve leaves behind, `q`'s last, must not fit in front of the new view. */
  lemma ExactServeIff(p: seq<Entry>, v: seq<Entry>, e: Entry, budget: nat)
    requires v == Evicted(p + v, budget)
    ensures var q, w := Without(p, e.key), Touched(v, e);
            Served(v, e, Some(budget)) == Evicted(Touched(p + v, e), budget) <==>
            q == [] || (budget != 0 && q[|q| - 1].bytes + Bytes(w) > budget)
  {
    WithoutConcat(p, v, e.key);
    var q, w := Without(p, e.key), Touched(v, e);
    assert Touched(p + v, e) == q + w;
    if q == [] {
      assert q + w == w;
    } else if budget != 0 && q[|q| - 1].bytes + Bytes(w) > budget {
      DropAll(q, w, budget);
    } else {
      ComesBack(q, w, budget);
    }
  }

  lemma ComesBack(q: seq<Entry>, w: seq<Entry>, budget: nat)
    requires q != [] && w != []
    requires budget == 0 || q[|q| - 1].bytes + Bytes(w) <= budget
    ensures Evicted(q + w, budget) != Evicted(w, budget)
  {
    EvictedSuffix(w, budget);
    if budget != 0 {
      var x := [q[|q| - 1]] + w;
      assert (q + w)[|q| - 1..] == x;
      assert x[1..] == w && Fits(x, budget);
      EvictionMonotone(x, q + w, budget, budget);
    }
  }

  /** Serving `e` again does not make room for an entry already evicted. */
  lemma StillTooBig(p: seq<Entry>, v: seq<Entry>, e: Entry, budget: nat)
    requires NoDup(p + v) && NoLarger(p + v, e)
    requires p != [] && p[|p| - 1].bytes + Bytes(v) > budget
    ensures var q := Without(p, e.key);
            q != [] ==> q[|q| - 1].bytes + Bytes(Touched(v, e)) > budget
  {
    var x := p[|p| - 1];
    assert x in p && x in p + v;
    NoDupParts(p, v);
    BytesConcat(Without(v, e.key), [e]);
    if x.key == e.key {
      WithoutNoDup(v, e.key);
    } else {
      assert NoLarger(v, e) by {
        forall y | y in v ensures y in p + v {}
      }
      WithoutBytes(v, e);
      LastOfWithout(p, e.key);
    }
  }

  /** The last entry evicted did not fit in front of what was kept. */
  lemma {:induction false} LastDropped(p: seq<Entry>, v: seq<Entry>, budget: nat)
    requires p != [] && v == Evicted(p + v, budget)
    ensures budget != 0 && p[|p| - 1].bytes + Bytes(v) > budget
  {
    var u := p + v;
    if |p| == 1 {
      assert u == [p[0]] + v && u[1..] == v;
    } else {
      assert u[1..] == p[1..] + v;
      LastDropped(p[1..], v, budget);
    }
  }

  lemma {:induction false} LastOfWithout(p: seq<Entry>, key: Key)
    requires p != []
    ensures p[|p| - 1].key != key ==>
              Without(p, key) != [] && Without(p, key)[|Without(p, key)| - 1] == p[|p| - 1]
  {
    if |p| > 1 { LastOfWithout(p[1..], key); }
  }

  lemma {:induction false} DropAll(q: seq<Entry>, w: seq<Entry>, budget: nat)
    requires w != [] && budget != 0
    requires q != [] ==> q[|q| - 1].bytes + Bytes(w) > budget
    ensures Evicted(q + w, budget) == Evicted(w, budget)
  {
    if q == [] {
      assert q + w == w;
    } else {
      var n := |q| - 1;
      BytesConcat(q, w);
      BytesConcat(q[..n], [q[n]]);
      assert q == q[..n] + [q[n]];
      assert (q + w)[1..] == q[1..] + w;
      DropAll(q[1..], w, budget);
    }
  }

  // ── Which entries are resident, whatever the sizes and budgets do ──────────

  /** The part of the view from the entry of `key` on: that entry and all newer ones. */
  function From(v: seq<Entry>, key: Key): (r: seq<Entry>) {
    if v == [] || v[0].key == key then v else From(v[1..], key)
  }

  ghost predicate Has(v: seq<Entry>, key: Key) {
    !Lacks(v, key)
  }

  predicate Leaves(budget: Option<nat>, v: seq<Entry>) {
    budget.None? || Fits(v, budget.value)
  }

  function EntriesOf(serves: seq<Serve>): (entries: seq<Entry>)
    ensures |entries| == |serves|
  {
    seq(|serves|, i requires 0 <= i < |serves| => serves[i].entry)
  }

  /** The view without any eviction after the first `t` serves. */
  function Unlimited(serves: seq<Serve>, t: nat): (v: seq<Entry>)
    requires t <= |serves|
  {
    ServeAll(EntriesOf(serves)[..t], None)
  }

  /** How many serves there were when `key` was last served; 0 if it never was. */
  function LastServed(serves: seq<Serve>, key: Key): (t: nat)
    ensures t <= |serves|
  {
    if serves == [] then 0
    else if serves[|serves| - 1].entry.key == key then |serves|
    else LastServed(serves[..|serves| - 1], key)
  }

  /** Ever since `key` was last served, what was served after it fits beside it. */
  ghost predicate EverFits(serves: seq<Serve>, key: Key) {
    && 0 < LastServed(serves, key)
    && forall t :: LastServed(serves, key) <= t <= |serves| ==>
                     Leaves(serves[t - 1].budget, From(Unlimited(serves, t), key))
  }

  /** An entry is in the view exactly if at every serve since its own it fitted,
      together with all entries served after it, the budget of that serve. */
  lemma {:induction false} ResidentIff(serves: seq<Serve>, key: Key)
    ensures Has(Run(serves), key) <==> EverFits(serves, key)
  {
    if serves != [] {
      var n := |serves| - 1;
      var was, e := serves[..n], serves[n].entry;
      ResidentIff(was, key);
      RunIsSuffix(was);
      UnlimitedPrefix(serves);
      UnlimitedView(EntriesOf(was));
      ResidentStep(Run(was), Unlimited(was, n), e, serves[n].budget, key);
      EverFitsStep(serves, key);
    }
  }

  lemma EverFitsStep(serves: seq<Serve>, key: Key)
    requires serves != []
    ensures var n := |serves| - 1;
            EverFits(serves, key) <==>
            || serves[n].entry.key == key
            || (EverFits(serves[..n], key) && Leaves(serves[n].budget, From(Unlimited(serves, n + 1), key)))
  {
    var n := |serves| - 1;
    UnlimitedPrefix(serves);
    if serves[n].entry.key == key {
      WithoutNoDup(Unlimited(serves, n), key);
      LastIsNewest(Without(Unlimited(serves, n), key), serves[n].entry);
    } else {
      assert forall i :: 0 <= i < n ==> serves[..n][i] == serves[i];
    }
  }

  lemma {:induction false} LastIsNewest(v: seq<Entry>, e: Entry)
    requires Lacks(v, e.key)
    ensures From(v + [e], e.key) == [e]
  {
    if v == [] {
      assert v + [e] == [e];
    } else {
      assert v[0] in v;
      assert (v + [e])[1..] == v[1..] + [e];
      LastIsNewest(v[1..], e);
    }
  }

  lemma UnlimitedPrefix(serves: seq<Serve>)
    requires serves != []
    ensures var n := |serves| - 1;
            && (forall t :: 0 <= t <= n ==> Unlimited(serves[..n], t) == Unlimited(serves, t))
            && Unlimited(serves, n + 1) == Touched(Unlimited(serves, n), serves[n].entry)
            && Unlimited(serves[..n], n) == ServeAll(EntriesOf(serves[..n]), None)
  {
    var n := |serves| - 1;
    assert forall t :: 0 <= t <= n ==> EntriesOf(serves[..n])[..t] == EntriesOf(serves)[..t];
    assert EntriesOf(serves)[..n + 1][..n] == EntriesOf(serves)[..n];
    assert EntriesOf(serves[..n])[..n] == EntriesOf(serves[..n]);
  }

  lemma {:induction false} RunIsSuffix(serves: seq<Serve>)
    ensures IsSuffix(Run(serves), Unlimited(serves, |serves|))
  {
    if serves != [] {
      var n := |serves| - 1;
      RunIsSuffix(serves[..n]);
      UnlimitedPrefix(serves);
      InclusionStep(Run(serves[..n]), Unlimited(serves, n), serves[n].entry, serves[n].budget, None);
    }
  }

  lemma ResidentStep(v: seq<Entry>, u: seq<Entry>, e: Entry, budget: Option<nat>, key: Key)
    requires IsSuffix(v, u) && NoDup(u)
    ensures Has(Served(v, e, budget), key) <==>
            key == e.key || (Has(v, key) && Leaves(budget, From(Touched(u, e), key)))
  {
    var p := FrontOf(v, u);
    WithoutConcat(p, v, e.key);
    WithoutNoDup(u, e.key);
    WithoutNoDup(v, e.key);
    AppendNoDup(Without(u, e.key), e);
    var q, w := Without(p, e.key), Touched(v, e);
    assert Touched(u, e) == q + w;
    NoDupParts(q, w);
    assert e in w && (key != e.key ==> (Has(w, key) <==> Has(v, key)));
    if key == e.key {
      if budget.Some? { ServeRespectsBudget(v, e, budget.value); }
    } else if Has(w, key) {
      FromConcat(q, w, key);
      if budget.Some? { EvictedHas(w, budget.value, key); }
    } else if budget.Some? {
      EvictedSuffix(w, budget.value);
    }
  }

  lemma {:induction false} FromConcat(q: seq<Entry>, w: seq<Entry>, key: Key)
    requires Lacks(q, key)
    ensures From(q + w, key) == From(w, key)
  {
    if q == [] {
      assert q + w == w;
    } else {
      assert q[0] in q && (q + w)[1..] == q[1..] + w;
      FromConcat(q[1..], w, key);
    }
  }

  lemma {:induction false} EvictedHas(w: seq<Entry>, budget: nat, key: Key)
    requires NoDup(w) && Has(w, key)
    ensures Has(Evicted(w, budget), key) <==> Fits(From(w, key), budget)
  {
    if Fits(w, budget) {
      FromIsSmaller(w, key);
    } else if w[0].key == key {
      EvictedSuffix(w[1..], budget);
    } else {
      EvictedHas(w[1..], budget, key);
    }
  }

  lemma {:induction false} FromIsSmaller(w: seq<Entry>, key: Key)
    ensures Bytes(From(w, key)) <= Bytes(w) && |From(w, key)| <= |w|
  {
    if w != [] && w[0].key != key { FromIsSmaller(w[1..], key); }
  }

  /** The same budget at every serve. */
  function Steady(entries: seq<Entry>, budget: nat): (serves: seq<Serve>)
    ensures |serves| == |entries| && EntriesOf(serves) == entries
  {
    seq(|entries|, i requires 0 <= i < |entries| => Serve(entries[i], Some(budget)))
  }

  lemma SteadyPrefix(entries: seq<Entry>, budget: nat)
    requires entries != []
    ensures Steady(entries, budget)[..|entries| - 1] == Steady(entries[..|entries| - 1], budget)
  {
  }

  lemma {:induction false} SteadyRun(entries: seq<Entry>, budget: nat)
    ensures Run(Steady(entries, budget)) == ServeAll(entries, Some(budget))
  {
    if entries != [] {
      var n := |entries| - 1;
      SteadyRun(entries[..n], budget);
      SteadyPrefix(entries, budget);
    }
  }

  /** For any trace: evicting along the way ends where evicting once at the end
      would, exactly if each entry that would be kept has fitted ever since. */
  lemma ExactIff(entries: seq<Entry>, budget: nat)
    ensures ServeAll(entries, Some(budget)) == Evicted(ServeAll(entries, None), budget) <==>
            forall x :: x in Evicted(ServeAll(entries, None), budget) ==> EverFits(Steady(entries, budget), x.key)
  {
    var serves := Steady(entries, budget);
    var v, u := Run(serves), ServeAll(entries, None);
    SteadyRun(entries, budget);
    RunIsSuffix(serves);
    assert EntriesOf(serves)[..|serves|] == entries;
    UnlimitedView(entries);
    KeptIsSuffix(entries, budget);
    forall x | x in Evicted(u, budget)
      ensures EverFits(serves, x.key) <==> Has(v, x.key)
    {
      ResidentIff(serves, x.key);
    }
    EvictedSuffix(u, budget);
    var p := FrontOf(Evicted(u, budget), u);
    NoDupParts(p, Evicted(u, budget));
    SameKeysSuffix(v, Evicted(u, budget));
  }

  lemma KeptIsSuffix(entries: seq<Entry>, budget: nat)
    ensures IsSuffix(ServeAll(entries, Some(budget)), Evicted(ServeAll(entries, None), budget))
  {
    var v, u := ServeAll(entries, Some(budget)), ServeAll(entries, None);
    SteadyRun(entries, budget);
    RunIsSuffix(Steady(entries, budget));
    assert EntriesOf(Steady(entries, budget))[..|entries|] == entries;
    if entries != [] && budget != 0 {
      EvictedSuffix(Touched(ServeAll(entries[..|entries| - 1], Some(budget)), entries[|entries| - 1]), budget);
      EvictionMonotone(v, u, budget, budget);
    }
  }

  lemma SameKeysSuffix(v: seq<Entry>, w: seq<Entry>)
    requires IsSuffix(v, w) && NoDup(w)
    ensures v == w <==> forall x :: x in w ==> Has(v, x.key)
  {
    if |v| < |w| {
      assert w[0] in w;
      assert forall x :: x in v ==> x in w[1..];
    }
  }

  /** Exactness can fail: once an entry shrinks, an older one that was
      evicted for it would fit again, but is gone. */
  lemma ShrinkingEntryCounterexample(k: Key, l: Key)
    requires k != l
    ensures var a, b, b' := Entry(k, 5), Entry(l, 6), Entry(l, 1);
            && ServeAll([a, b, b'], Some(10)) == [b']
            && Evicted(ServeAll([a, b, b'], None), 10) == [a, b']
  {
    var a, b, b' := Entry(k, 5), Entry(l, 6), Entry(l, 1);
    assert [a, b, b'] == [a, b] + [b'] && [a, b] == [a] + [b] && [a] == [] + [a];
    assert Without([], k) == [] && Without([a], l) == [a] && Without([b], l) == [] && Without([a, b], l) == [a];
    ServedWithin10(a, b, b');
    ServeOneMore([], a, None);
    ServeOneMore([a], b, None);
    ServeOneMore([a, b], b', None);
    TwoEntries(a, b');
  }

  lemma ServedWithin10(a: Entry, b: Entry, b': Entry)
    requires a.key != b.key == b'.key && a.bytes == 5 && b.bytes == 6
    ensures ServeAll([a, b] + [b'], Some(10)) == [b']
  {
    assert [a, b] == [a] + [b] && [a] == [] + [a];
    TwoEntries(a, b);
    assert Without([a], b.key) == [a] && Without([b], b.key) == [];
    ServeOneMore([], a, Some(10));
    ServeOneMore([a], b, Some(10));
    assert Evicted([a, b], 10) == Evicted([b], 10) == [b];
    ServeOneMore([a, b], b', Some(10));
  }

  lemma TwoEntries(x: Entry, y: Entry)
    ensures Bytes([x, y]) == x.bytes + y.bytes && [x, y][1..] == [y]
  {
    assert [y][1..] == [] && Bytes([y]) == y.bytes;
  }

  lemma ServeOneMore(entries: seq<Entry>, e: Entry, budget: Option<nat>)
    ensures ServeAll(entries + [e], budget) == Served(ServeAll(entries, budget), e, budget)
  {
    assert (entries + [e])[..|entries|] == entries;
  }
}
