/**
 The config and secret watchers (rust/konfig/watcher.rs, rust/konfig/secret_watcher.rs).

 Both route kube events through one relist state machine: on a reconnect the
 objects between Init and InitDone are buffered and committed with one swap;
 everything else is handled event by event.
 */
module Watchers {
  import opened Common
  import opened CowCache

  /** What a kube object parses to. */
  datatype Object = Object(key: Target, payload: string)

  datatype Event =
    | Apply(parsed: Option<Object>)
    | InitApply(parsed: Option<Object>)
    | Delete(parsed: Option<Object>)
    | Init
    | InitDone

  /** A freshly parsed object is never stale. */
  function Snap(o: Object): (s: Snapshot) {
    Snapshot(o.key, o.payload, None)
  }

  function Put(m: Cache, o: Object): (r: Cache) {
    m[o.key := Snap(o)]
  }

  function PutAll(m: Cache, os: seq<Object>): (r: Cache) {
    if os == [] then m else Put(PutAll(m, os[..|os| - 1]), os[|os| - 1])
  }

  // ── Reference: every event on its own ──────────────────────────────────────

  /** The object an event upserts when it is handled at once. */
  function Delivered(e: Event): (o: Option<Object>) {
    if e.Apply? || e.InitApply? then e.parsed else None
  }

  function Handled(m: Cache, e: Event): (r: Cache) {
    match Delivered(e) case Some(o) => Put(m, o) case None => m
  }

  function PerEvent(m: Cache, es: seq<Event>): (r: Cache) {
    if es == [] then m else Handled(PerEvent(m, es[..|es| - 1]), es[|es| - 1])
  }

  // ── The relist state machine ───────────────────────────────────────────────

  /** The cache, the relist buffer while one is open, and the swaps made. */
  datatype Conn = Conn(cache: Cache, relist: Option<seq<Object>>, swaps: nat)

  function Routed(c: Conn, e: Event, batch: bool): (r: Conn) {
    if c.relist.Some? && e.InitApply? then
      c.(relist := Some(if e.parsed.Some? then c.relist.value + [e.parsed.value] else c.relist.value))
    else if c.relist.Some? && e.InitDone? then
      Conn(PutAll(c.cache, c.relist.value), None, c.swaps + if c.relist.value == [] then 0 else 1)
    else if c.relist.None? && batch && e.Init? then
      c.(relist := Some([]))
    else
      Conn(Handled(c.cache, e), c.relist, c.swaps + if Delivered(e).Some? then 1 else 0)
  }

  function RunFrom(c: Conn, es: seq<Event>, batch: bool): (r: Conn) {
    if es == [] then c else Routed(RunFrom(c, es[..|es| - 1], batch), es[|es| - 1], batch)
  }

  function Fresh(m: Cache): (c: Conn) {
    Conn(m, None, 0)
  }

  /** The relist buffer a stream has built up, whatever the cache holds. */
  function Listing(es: seq<Event>, batch: bool): (buffer: Option<seq<Object>>) {
    RunFrom(Fresh(map[]), es, batch).relist
  }

  lemma {:induction false} ListingIsRelist(m: Cache, es: seq<Event>, batch: bool)
    ensures RunFrom(Fresh(m), es, batch).relist == Listing(es, batch)
  {
    if es != [] { ListingIsRelist(m, es[..|es| - 1], batch); }
  }

  // ── Batching refines per-event handling ────────────────────────────────────

  /** No live upsert of a key that the open relist has already listed. */
  ghost predicate Undisturbed(es: seq<Event>, batch: bool) {
    forall i :: 0 <= i < |es| && es[i].Apply? && es[i].parsed.Some? ==>
                  Misses(Listing(es[..i], batch), es[i].parsed.value.key)
  }

  ghost predicate Misses(buffer: Option<seq<Object>>, key: Target) {
    buffer.Some? ==> forall i :: 0 <= i < |buffer.value| ==> buffer.value[i].key != key
  }

  function Pending(c: Conn): (os: seq<Object>) {
    if c.relist.Some? then c.relist.value else []
  }

  /** At every point of an undisturbed stream the batched cache lags behind the
      per-event cache by exactly the open buffer; outside a relist they are equal. */
  lemma {:induction false} BatchingRefinesPerEvent(m: Cache, es: seq<Event>, batch: bool)
    requires Undisturbed(es, batch)
    ensures var c := RunFrom(Fresh(m), es, batch);
            && PerEvent(m, es) == PutAll(c.cache, Pending(c))
            && (Listing(es, batch).None? ==> c.cache == PerEvent(m, es))
  {
    ListingIsRelist(m, es, batch);
    if es != [] {
      var n := |es| - 1;
      assert forall i :: 0 <= i < n ==> es[..n][..i] == es[..i];
      BatchingRefinesPerEvent(m, es[..n], batch);
      ListingIsRelist(m, es[..n], batch);
      EventKeepsLag(RunFrom(Fresh(m), es[..n], batch), es[n], batch);
    }
  }

  lemma EventKeepsLag(c: Conn, e: Event, batch: bool)
    requires e.Apply? && e.parsed.Some? ==> Misses(c.relist, e.parsed.value.key)
    ensures var d := Routed(c, e, batch);
            Handled(PutAll(c.cache, Pending(c)), e) == PutAll(d.cache, Pending(d))
  {
    if c.relist.Some? && Delivered(e).Some? {
      if e.InitApply? {
        var buffer := c.relist.value + [e.parsed.value];
        assert buffer[..|c.relist.value|] == c.relist.value;
      } else {
        PutCommutes(c.cache, c.relist.value, e.parsed.value);
      }
    }
  }

  lemma {:induction false} PutCommutes(m: Cache, os: seq<Object>, o: Object)
    requires forall i :: 0 <= i < |os| ==> os[i].key != o.key
    ensures PutAll(Put(m, o), os) == Put(PutAll(m, os), o)
  {
    if os != [] { PutCommutes(m, os[..|os| - 1], o); }
  }

  // ── One relist in detail ───────────────────────────────────────────────────

  function Listed(es: seq<Event>): (os: seq<Object>) {
    if es == [] then []
    else
      var n := |es| - 1;
      if es[n].InitApply? && es[n].parsed.Some? then Listed(es[..n]) + [es[n].parsed.value] else Listed(es[..n])
  }

  function Live(es: seq<Event>): (os: seq<Object>) {
    if es == [] then []
    else
      var n := |es| - 1;
      if es[n].Apply? && es[n].parsed.Some? then Live(es[..n]) + [es[n].parsed.value] else Live(es[..n])
  }

  /** Between Init and InitDone live upserts go to the cache and listed objects to
      the buffer. */
  lemma {:induction false} RelistBody(c: Conn, body: seq<Event>)
    requires c.relist.Some? && forall i :: 0 <= i < |body| ==> !body[i].InitDone?
    ensures RunFrom(c, body, true) ==
            Conn(PutAll(c.cache, Live(body)), Some(c.relist.value + Listed(body)), c.swaps + |Live(body)|)
  {
    if body != [] {
      var n := |body| - 1;
      RelistBody(c, body[..n]);
      var live := Live(body[..n]);
      if Live(body) != live {
        assert Live(body)[..|live|] == live;
      }
      if Listed(body) != Listed(body[..n]) {
        assert c.relist.value + Listed(body) == (c.relist.value + Listed(body[..n])) + [body[n].parsed.value];
      }
    } else {
      assert c.relist.value + [] == c.relist.value;
    }
  }

  lemma {:induction false} RunFromConcat(c: Conn, xs: seq<Event>, ys: seq<Event>, batch: bool)
    ensures RunFrom(c, xs + ys, batch) == RunFrom(RunFrom(c, xs, batch), ys, batch)
  {
    if ys == [] {
      assert xs + ys == xs;
    } else {
      assert (xs + ys)[..|xs + ys| - 1] == xs + ys[..|ys| - 1];
      RunFromConcat(c, xs, ys[..|ys| - 1], batch);
    }
  }

  /** After Init and `body`: live upserts are in the cache, listed objects in the buffer. */
  lemma OpenRelist(c: Conn, body: seq<Event>)
    requires c.relist.None? && forall i :: 0 <= i < |body| ==> !body[i].InitDone?
    ensures RunFrom(c, [Init] + body, true) ==
            Conn(PutAll(c.cache, Live(body)), Some(Listed(body)), c.swaps + |Live(body)|)
  {
    var open := c.(relist := Some([]));
    assert [Init][..0] == [];
    assert RunFrom(c, [Init], true) == open;
    RunFromConcat(c, [Init], body, true);
    RelistBody(open, body);
    assert [] + Listed(body) == Listed(body);
  }

  /** A relist without live upserts leaves the cache as it was at Init, so one cut short
      by an error changes nothing. */
  lemma OpenRelistIsInvisible(c: Conn, body: seq<Event>)
    requires c.relist.None? && Live(body) == [] && forall i :: 0 <= i < |body| ==> !body[i].InitDone?
    ensures RunFrom(c, [Init] + body, true) == Conn(c.cache, Some(Listed(body)), c.swaps)
  {
    OpenRelist(c, body);
  }

  /** Completing it costs one swap, or none if nothing was listed. */
  lemma RelistIsOneSwap(c: Conn, body: seq<Event>)
    requires c.relist.None? && Live(body) == [] && forall i :: 0 <= i < |body| ==> !body[i].InitDone?
    ensures RunFrom(c, [Init] + body + [InitDone], true) ==
            Conn(PutAll(c.cache, Listed(body)), None, c.swaps + if Listed(body) == [] then 0 else 1)
  {
    OpenRelistIsInvisible(c, body);
    OneMoreEvent(c, [Init] + body, InitDone, true);
  }

  lemma OneMoreEvent(c: Conn, es: seq<Event>, e: Event, batch: bool)
    ensures RunFrom(c, es + [e], batch) == Routed(RunFrom(c, es, batch), e, batch)
  {
    assert (es + [e])[..|es|] == es;
  }

  function LastFor(os: seq<Object>, key: Target): (o: Option<Object>) {
    if os == [] then None
    else if os[|os| - 1].key == key then Some(os[|os| - 1]) else LastFor(os[..|os| - 1], key)
  }

  function DeliveredAll(es: seq<Event>): (os: seq<Object>) {
    if es == [] then []
    else
      var n := |es| - 1;
      match Delivered(es[n]) case Some(o) => DeliveredAll(es[..n]) + [o] case None => DeliveredAll(es[..n])
  }

  /** Live events do fall into a relist.  Batching then still agrees with per-event
      handling exactly when, for every listed key, the last object delivered for it
      is the last one listed. */
  lemma RelistAgreesIff(m: Cache, body: seq<Event>)
    requires forall i :: 0 <= i < |body| ==> !body[i].InitDone?
    ensures RunFrom(Fresh(m), [Init] + body + [InitDone], true).cache == PerEvent(m, [Init] + body + [InitDone])
            <==> forall k :: LastListed(body, k)
  {
    RelistCommits(m, body);
    assert ([Init] + body + [InitDone])[..|body| + 1] == [Init] + body;
    PerEventIsPutAll(m, body);
    CommitAgreesIff(m, body);
  }

  /** A completed relist commits its live upserts first and everything listed after them. */
  lemma RelistCommits(m: Cache, body: seq<Event>)
    requires forall i :: 0 <= i < |body| ==> !body[i].InitDone?
    ensures RunFrom(Fresh(m), [Init] + body + [InitDone], true).cache == PutAll(PutAll(m, Live(body)), Listed(body))
  {
    OpenRelist(Fresh(m), body);
    OneMoreEvent(Fresh(m), [Init] + body, InitDone, true);
  }

  ghost predicate LastListed(body: seq<Event>, k: Target) {
    LastFor(Listed(body), k).Some? ==> LastFor(DeliveredAll(body), k) == LastFor(Listed(body), k)
  }

  lemma CommitAgreesIff(m: Cache, body: seq<Event>)
    ensures PutAll(PutAll(m, Live(body)), Listed(body)) == PutAll(m, DeliveredAll(body)) <==>
            forall k :: LastListed(body, k)
  {
    var batched, single := PutAll(PutAll(m, Live(body)), Listed(body)), PutAll(m, DeliveredAll(body));
    if batched == single {
      forall k ensures LastListed(body, k) { CommitAgreesAt(m, body, k); }
    }
    if forall k :: LastListed(body, k) {
      forall k
        ensures k in batched <==> k in single
        ensures k in batched ==> batched[k] == single[k]
      {
        CommitAgreesAt(m, body, k);
        assert LastListed(body, k);
      }
    }
  }

  lemma CommitAgreesAt(m: Cache, body: seq<Event>, k: Target)
    ensures var batched, single := PutAll(PutAll(m, Live(body)), Listed(body)), PutAll(m, DeliveredAll(body));
            && (k in batched <==> k in single)
            && (k in batched ==> (batched[k] == single[k] <==> LastListed(body, k)))
            && (k !in batched ==> LastListed(body, k))
  {
    PutAllAt(PutAll(m, Live(body)), Listed(body), k);
    PutAllAt(m, Live(body), k);
    PutAllAt(m, DeliveredAll(body), k);
    LastDelivered(body, k);
  }

  lemma {:induction false} PerEventIsPutAll(m: Cache, body: seq<Event>)
    ensures PerEvent(m, [Init] + body) == PutAll(m, DeliveredAll(body))
  {
    var es := [Init] + body;
    if body == [] {
      assert es == [Init] && es[..0] == [];
    } else {
      var n := |body| - 1;
      assert es[..|es| - 1] == [Init] + body[..n];
      PerEventIsPutAll(m, body[..n]);
      var os := DeliveredAll(body[..n]);
      if Delivered(body[n]).Some? { assert DeliveredAll(body)[..|os|] == os; }
    }
  }

  lemma {:induction false} PutAllAt(m: Cache, os: seq<Object>, k: Target)
    ensures k in PutAll(m, os) <==> k in m || LastFor(os, k).Some?
    ensures k in PutAll(m, os) ==>
              PutAll(m, os)[k] == (match LastFor(os, k) case Some(o) => Snap(o) case None => m[k])
  {
    if os != [] { PutAllAt(m, os[..|os| - 1], k); }
  }

  lemma {:induction false} LastDelivered(body: seq<Event>, k: Target)
    ensures LastFor(DeliveredAll(body), k).Some? <==> LastFor(Listed(body), k).Some? || LastFor(Live(body), k).Some?
    ensures LastFor(Listed(body), k).None? ==> LastFor(DeliveredAll(body), k) == LastFor(Live(body), k)
  {
    if body != [] {
      var n := |body| - 1;
      LastDelivered(body[..n], k);
      if Delivered(body[n]).Some? {
        var o := Delivered(body[n]).value;
        LastAppended(DeliveredAll(body[..n]), o, k);
        LastAppended(Listed(body[..n]), o, k);
        LastAppended(Live(body[..n]), o, k);
      }
    }
  }

  lemma LastAppended(os: seq<Object>, o: Object, k: Target)
    ensures LastFor(os + [o], k) == if o.key == k then Some(o) else LastFor(os, k)
  {
    assert (os + [o])[..|os|] == os;
  }

  /** The condition can fail: a live update that lands inside the relist is undone by
      the older listed object when the buffer is committed. */
  lemma LiveUpdateInRelistCounterexample(key: Target)
    ensures var old_, new_ := Object(key, "listed"), Object(key, "live");
            var es := [Init, InitApply(Some(old_)), Apply(Some(new_)), InitDone];
            && RunFrom(Fresh(map[]), es, true).cache == map[key := Snap(old_)]
            && PerEvent(map[], es) == map[key := Snap(new_)]
  {
    var o, p := Object(key, "listed"), Object(key, "live");
    var es := [Init, InitApply(Some(o)), Apply(Some(p)), InitDone];
    assert es[..3] == [Init, InitApply(Some(o)), Apply(Some(p))];
    assert es[..3][..2] == [Init, InitApply(Some(o))] && es[..3][..2][..1] == [Init] && [Init][..0] == [];
    var m: Cache := map[];
    assert [] + [o] == [o] && [o][..0] == [];
    assert PutAll(Put(m, p), [o]) == Put(PutAll(Put(m, p), []), o) == map[key := Snap(o)];
    assert RunFrom(Fresh(m), es[..3][..2], true) == Conn(m, Some([o]), 0);
    assert RunFrom(Fresh(m), es[..3], true) == Conn(Put(m, p), Some([o]), 1);
    assert PerEvent(m, es[..3][..2]) == Put(m, o);
    assert PerEvent(m, es[..3]) == Put(Put(m, o), p) == map[key := Snap(p)];
  }

  // ── Last known good and staleness over whole lives ─────────────────────────

  /** One watch connection; `mark` is the instant of the disconnect mark, if any. */
  datatype Connection = Connection(events: seq<Event>, batch: bool, mark: Option<real>)

  function Lived(m: Cache, conns: seq<Connection>): (r: Cache) {
    if conns == [] then m
    else
      var last := conns[|conns| - 1];
      var c := RunFrom(Fresh(Lived(m, conns[..|conns| - 1])), last.events, last.batch).cache;
      match last.mark case Some(now) => AllStale(c, now) case None => c
  }

  /** What reached the cache: committed upserts and disconnect marks, in order. */
  datatype Fact = Upserted(o: Object) | Marked(now: real)

  function Facts(os: seq<Object>): (fs: seq<Fact>)
    ensures |fs| == |os| && forall i :: 0 <= i < |os| ==> fs[i] == Upserted(os[i])
  {
    seq(|os|, i requires 0 <= i < |os| => Upserted(os[i]))
  }

  /** What one event commits, given the relist buffer it finds. */
  function Commit(buffer: Option<seq<Object>>, e: Event): (fs: seq<Fact>) {
    if buffer.Some? && e.InitDone? then Facts(buffer.value)
    else if buffer.Some? && e.InitApply? then []
    else match Delivered(e) case Some(o) => [Upserted(o)] case None => []
  }

  function Commits(es: seq<Event>, batch: bool): (fs: seq<Fact>) {
    if es == [] then []
    else
      var n := |es| - 1;
      Commits(es[..n], batch) + Commit(Listing(es[..n], batch), es[n])
  }

  function History(conns: seq<Connection>): (fs: seq<Fact>) {
    if conns == [] then []
    else
      var last := conns[|conns| - 1];
      History(conns[..|conns| - 1]) + Commits(last.events, last.batch)
      + match last.mark case Some(now) => [Marked(now)] case None => []
  }

  function Rebuilt(m: Cache, fs: seq<Fact>): (r: Cache) {
    if fs == [] then m
    else
      match fs[|fs| - 1]
      case Upserted(o) => Put(Rebuilt(m, fs[..|fs| - 1]), o)
      case Marked(now) => AllStale(Rebuilt(m, fs[..|fs| - 1]), now)
  }

  lemma {:induction false} RebuiltConcat(m: Cache, fs: seq<Fact>, gs: seq<Fact>)
    ensures Rebuilt(m, fs + gs) == Rebuilt(Rebuilt(m, fs), gs)
    ensures Rebuilt(m, fs).Keys <= Rebuilt(m, fs + gs).Keys
  {
    if gs == [] {
      assert fs + gs == fs;
    } else {
      assert (fs + gs)[..|fs + gs| - 1] == fs + gs[..|gs| - 1];
      RebuiltConcat(m, fs, gs[..|gs| - 1]);
    }
  }

  lemma {:induction false} FactsPutAll(m: Cache, os: seq<Object>)
    ensures Rebuilt(m, Facts(os)) == PutAll(m, os)
  {
    if os != [] {
      var n := |os| - 1;
      FactsPutAll(m, os[..n]);
      assert Facts(os)[..n] == Facts(os[..n]);
    }
  }

  lemma {:induction false} RunIsItsCommits(m: Cache, es: seq<Event>, batch: bool)
    ensures RunFrom(Fresh(m), es, batch).cache == Rebuilt(m, Commits(es, batch))
  {
    if es != [] {
      var n := |es| - 1;
      RunIsItsCommits(m, es[..n], batch);
      ListingIsRelist(m, es[..n], batch);
      var c := RunFrom(Fresh(m), es[..n], batch);
      RebuiltConcat(m, Commits(es[..n], batch), Commit(c.relist, es[n]));
      EventIsItsCommit(c, es[n], batch);
    }
  }

  lemma EventIsItsCommit(c: Conn, e: Event, batch: bool)
    ensures Routed(c, e, batch).cache == Rebuilt(c.cache, Commit(c.relist, e))
  {
    if c.relist.Some? && e.InitDone? {
      FactsPutAll(c.cache, c.relist.value);
    } else if Delivered(e).Some? {
      assert [Upserted(Delivered(e).value)][..0] == [];
    }
  }

  lemma {:induction false} LifeIsItsHistory(m: Cache, conns: seq<Connection>)
    ensures Lived(m, conns) == Rebuilt(m, History(conns))
  {
    if conns != [] {
      var before, last := conns[..|conns| - 1], conns[|conns| - 1];
      LifeIsItsHistory(m, before);
      RunIsItsCommits(Lived(m, before), last.events, last.batch);
      var fs, gs := History(before), Commits(last.events, last.batch);
      RebuiltConcat(m, fs, gs);
      match last.mark {
        case Some(now) =>
          assert (fs + gs + [Marked(now)])[..|fs + gs|] == fs + gs;
        case None =>
          assert fs + gs + [] == fs + gs;
      }
    }
  }

  /** The last object committed for a key. */
  function LatestUpsert(fs: seq<Fact>, key: Target): (o: Option<Object>) {
    if fs == [] then None
    else
      var f := fs[|fs| - 1];
      if f.Upserted? && f.o.key == key then Some(f.o) else LatestUpsert(fs[..|fs| - 1], key)
  }

  /** The last disconnect mark, unless the key was committed after it. */
  function MarkSinceUpsert(fs: seq<Fact>, key: Target): (now: Option<real>) {
    if fs == [] then None
    else
      var f := fs[|fs| - 1];
      if f.Marked? then Some(f.now)
      else if f.o.key == key then None
      else MarkSinceUpsert(fs[..|fs| - 1], key)
  }

  lemma {:induction false} EntryOf(m: Cache, fs: seq<Fact>, k: Target)
    ensures k in Rebuilt(m, fs) <==> k in m || LatestUpsert(fs, k).Some?
    ensures k in Rebuilt(m, fs) ==>
              var base := match LatestUpsert(fs, k) case Some(o) => Snap(o) case None => m[k];
              Rebuilt(m, fs)[k] == match MarkSinceUpsert(fs, k) case Some(now) => Stale(base, now) case None => base
  {
    if fs != [] { EntryOf(m, fs[..|fs| - 1], k); }
  }

  /** What the facts leave of the entry a key had at first, field by field: the payload of
      its last upsert, or its first one; stale since the last mark after that. */
  ghost predicate LastGood(m: Cache, fs: seq<Fact>, k: Target, r: Cache) {
    && (k in r <==> k in m || LatestUpsert(fs, k).Some?)
    && (k in r ==>
          match LatestUpsert(fs, k)
          case Some(o) => r[k].key == k && r[k].payload == o.payload && r[k].staleSince == MarkSinceUpsert(fs, k)
          case None => Kept(m[k], MarkSinceUpsert(fs, k), r[k]))
  }

  /** Over every life of a watcher, with any relists, deletes and disconnects: a key
      stays once it is there; its payload is that of the last upsert committed for
      it; and it is stale, since the last disconnect mark, exactly when it has not
      been committed again after that mark. */
  lemma LastKnownGood(m: Cache, conns: seq<Connection>, k: Target)
    ensures LastGood(m, History(conns), k, Lived(m, conns))
  {
    LifeIsItsHistory(m, conns);
    EntryOf(m, History(conns), k);
    UpsertedUnder(History(conns), k);
  }

  lemma {:induction false} UpsertedUnder(fs: seq<Fact>, k: Target)
    ensures LatestUpsert(fs, k).Some? ==> LatestUpsert(fs, k).value.key == k
  {
    if fs != [] { UpsertedUnder(fs[..|fs| - 1], k); }
  }

  lemma {:induction false} KeysNeverVanish(m: Cache, conns: seq<Connection>, more: seq<Connection>)
    ensures Lived(m, conns).Keys <= Lived(m, conns + more).Keys
  {
    if more == [] {
      assert conns + more == conns;
    } else {
      var shorter := conns + more[..|more| - 1];
      KeysNeverVanish(m, conns, more[..|more| - 1]);
      assert conns + more == shorter + [more[|more| - 1]];
      ConnectionKeepsKeys(m, shorter, more[|more| - 1]);
    }
  }

  lemma {:induction false} ConnectionKeepsKeys(m: Cache, conns: seq<Connection>, last: Connection)
    ensures Lived(m, conns).Keys <= Lived(m, conns + [last]).Keys
  {
    var before := Lived(m, conns);
    assert (conns + [last])[..|conns|] == conns;
    RunIsItsCommits(before, last.events, last.batch);
    var fs := Commits(last.events, last.batch);
    assert [] + fs == fs;
    RebuiltConcat(before, [], fs);
  }

  // ── Batching against per-event handling on any stream ──────────────────────

  lemma {:induction false} PerEventDelivers(m: Cache, es: seq<Event>)
    ensures PerEvent(m, es) == PutAll(m, DeliveredAll(es))
  {
    if es != [] {
      var n := |es| - 1;
      PerEventDelivers(m, es[..n]);
      var os := DeliveredAll(es[..n]);
      if Delivered(es[n]).Some? { assert DeliveredAll(es)[..|os|] == os; }
    }
  }

  lemma {:induction false} LatestOfFacts(os: seq<Object>, k: Target)
    ensures LatestUpsert(Facts(os), k) == LastFor(os, k)
  {
    if os != [] {
      var n := |os| - 1;
      LatestOfFacts(os[..n], k);
      assert Facts(os)[..n] == Facts(os[..n]);
    }
  }

  lemma {:induction false} CommitsDoNotMark(es: seq<Event>, batch: bool)
    ensures forall i :: 0 <= i < |Commits(es, batch)| ==> Commits(es, batch)[i].Upserted?
  {
    if es != [] { CommitsDoNotMark(es[..|es| - 1], batch); }
  }

  lemma {:induction false} NoMark(fs: seq<Fact>, k: Target)
    requires forall i :: 0 <= i < |fs| ==> fs[i].Upserted?
    ensures MarkSinceUpsert(fs, k).None?
  {
    if fs != [] { NoMark(fs[..|fs| - 1], k); }
  }

  predicate Lists(buffer: Option<seq<Object>>, k: Target) {
    buffer.Some? && LastFor(buffer.value, k).Some?
  }

  /** Whatever was delivered has been committed or waits in the open relist. */
  lemma {:induction false} CommittedOrListed(es: seq<Event>, batch: bool, k: Target)
    ensures LastFor(DeliveredAll(es), k).Some? <==>
            LatestUpsert(Commits(es, batch), k).Some? || Lists(Listing(es, batch), k)
  {
    if es != [] {
      var n := |es| - 1;
      CommittedOrListed(es[..n], batch, k);
      assert es == es[..n] + [es[n]];
      ListingOneMore(es[..n], es[n], RunFrom(Fresh(map[]), es[..n], batch), batch);
      CommitStep(Commits(es[..n], batch), RunFrom(Fresh(map[]), es[..n], batch), es[n], batch, k);
      if Delivered(es[n]).Some? { LastAppended(DeliveredAll(es[..n]), Delivered(es[n]).value, k); }
    }
  }

  lemma CommitStep(fs: seq<Fact>, c: Conn, e: Event, batch: bool, k: Target)
    ensures LatestUpsert(fs + Commit(c.relist, e), k).Some? || Lists(Routed(c, e, batch).relist, k) <==>
            || LatestUpsert(fs, k).Some? || Lists(c.relist, k)
            || (Delivered(e).Some? && Delivered(e).value.key == k)
  {
    LatestConcat(fs, Commit(c.relist, e), k);
    if c.relist.Some? && e.InitDone? {
      LatestOfFacts(c.relist.value, k);
    } else if c.relist.Some? && e.InitApply? {
      if e.parsed.Some? { LastAppended(c.relist.value, e.parsed.value, k); }
    } else if Delivered(e).Some? {
      assert [Upserted(Delivered(e).value)][..0] == [];
    }
  }

  /** For any stream that leaves no relist open: batching ends where handling every event
      at once would end, exactly if the last object committed for each key is the last
      one delivered for it. */
  lemma StreamAgreesIff(m: Cache, es: seq<Event>, batch: bool)
    requires Listing(es, batch).None?
    ensures RunFrom(Fresh(m), es, batch).cache == PerEvent(m, es) <==>
            forall k :: LastCommitted(es, batch, k)
  {
    var batched, single := RunFrom(Fresh(m), es, batch).cache, PerEvent(m, es);
    if batched == single {
      forall k ensures LastCommitted(es, batch, k) { StreamAgreesAt(m, es, batch, k); }
    }
    if forall k :: LastCommitted(es, batch, k) {
      forall k
        ensures k in batched <==> k in single
        ensures k in batched ==> batched[k] == single[k]
      {
        StreamAgreesAt(m, es, batch, k);
        assert LastCommitted(es, batch, k);
      }
    }
  }

  /** The last object committed for `k`, if any, is the last one delivered for it. */
  ghost predicate LastCommitted(es: seq<Event>, batch: bool, k: Target) {
    LatestUpsert(Commits(es, batch), k) == LastFor(DeliveredAll(es), k)
  }

  lemma StreamAgreesAt(m: Cache, es: seq<Event>, batch: bool, k: Target)
    requires Listing(es, batch).None?
    ensures var batched, single := RunFrom(Fresh(m), es, batch).cache, PerEvent(m, es);
            && (k in batched <==> k in single)
            && (k in batched ==> (batched[k] == single[k] <==> LastCommitted(es, batch, k)))
            && (k !in batched ==> LastCommitted(es, batch, k))
  {
    RunIsItsCommits(m, es, batch);
    PerEventDelivers(m, es);
    EntryOf(m, Commits(es, batch), k);
    PutAllAt(m, DeliveredAll(es), k);
    CommitsDoNotMark(es, batch);
    NoMark(Commits(es, batch), k);
    CommittedOrListed(es, batch, k);
  }

  // ── What a caller is served ────────────────────────────────────────────────

  /** The event is an upsert of `key`, live or listed. */
  predicate Upserting(e: Event, key: Target) {
    (e.Apply? || e.InitApply?) && e.parsed.Some? && e.parsed.value.key == key
  }

  predicate Serves(m: Cache, o: Object) {
    o.key in m && m[o.key].key == o.key && m[o.key].payload == o.payload && m[o.key].staleSince == None
  }

  /** On a connection that does not batch, the last object received for a key, live or
      listed, is served fresh; nothing else removes or marks it. */
  lemma {:induction false} ReceivedIsServed(m: Cache, es: seq<Event>, i: nat, o: Object)
    requires i < |es| && (es[i] == Apply(Some(o)) || es[i] == InitApply(Some(o)))
    requires forall j :: i < j < |es| ==> !Upserting(es[j], o.key)
    ensures RunFrom(Fresh(m), es, false).relist == None && Serves(RunFrom(Fresh(m), es, false).cache, o)
  {
    var n := |es| - 1;
    NeverListing(m, es[..n]);
    if i < n { ReceivedIsServed(m, es[..n], i, o); }
  }

  lemma {:induction false} NeverListing(m: Cache, es: seq<Event>)
    ensures RunFrom(Fresh(m), es, false).relist == None
  {
    if es != [] { NeverListing(m, es[..|es| - 1]); }
  }

  /** When a batched relist completes, the last object listed for a key is served fresh. */
  lemma ListedIsServed(m: Cache, body: seq<Event>, i: nat, o: Object)
    requires forall j :: 0 <= j < |body| ==> !body[j].InitDone?
    requires i < |body| && body[i] == InitApply(Some(o))
    requires forall j :: i < j < |body| && body[j].InitApply? ==> !Upserting(body[j], o.key)
    ensures Serves(RunFrom(Fresh(m), [Init] + body + [InitDone], true).cache, o)
  {
    RelistCommits(m, body);
    LastOfListed(body, i, o);
    PutAllAt(PutAll(m, Live(body)), Listed(body), o.key);
  }

  lemma {:induction false} LastOfListed(body: seq<Event>, i: nat, o: Object)
    requires i < |body| && body[i] == InitApply(Some(o))
    requires forall j :: i < j < |body| && body[j].InitApply? ==> !Upserting(body[j], o.key)
    ensures LastFor(Listed(body), o.key) == Some(o)
  {
    var n := |body| - 1;
    if i < n { LastOfListed(body[..n], i, o); }
    if body[n].InitApply? && body[n].parsed.Some? { LastAppended(Listed(body[..n]), body[n].parsed.value, o.key); }
  }

  /** A deletion, and an object that does not parse, take nothing from the cache. */
  lemma OthersKeepTheCache(c: Conn, e: Event, batch: bool)
    requires e.Delete? || ((e.Apply? || e.InitApply?) && e.parsed.None?)
    ensures Routed(c, e, batch).cache == c.cache && Routed(c, e, batch).relist == c.relist
  {
  }

  /** A disconnect marks every entry there is, and takes nothing away. */
  lemma DisconnectMarksAll(m: Cache, conns: seq<Connection>, last: Connection, now: real)
    requires last.mark == Some(now)
    ensures var before := RunFrom(Fresh(Lived(m, conns)), last.events, last.batch).cache;
            var after := Lived(m, conns + [last]);
            after.Keys == before.Keys && forall k :: k in after ==> Kept(before[k], Some(now), after[k])
  {
    assert (conns + [last])[..|conns|] == conns;
  }

  /** So does the disconnect of any one of several watchers, to the others' entries too. */
  lemma DropMarksAll(s: Shared, w: string, now: real)
    ensures var after := Moved(s, Drop(w, now));
            && after.cache.Keys == s.cache.Keys
            && (forall k :: k in after.cache ==> Kept(s.cache[k], Some(now), after.cache[k]))
            && RelistOf(after, w) == None && w in after.dropped
            && forall v :: v != w ==> RelistOf(after, v) == RelistOf(s, v) && (v in after.dropped <==> v in s.dropped)
  {
  }

  /** The first connection of either watcher handles every event at once, and every later
      one batches its relists. */
  lemma OnlyReconnectsBatch(streams: seq<seq<Event>>, clock: seq<real>, errored: seq<Option<real>>, i: nat)
    requires |streams| == |clock| == |errored| && i < |streams|
    ensures Reconnecting(streams, clock)[i].batch <==> i != 0
    ensures Attempts(streams, errored)[i].batch <==> i != 0
    ensures Reconnecting(streams, clock)[i].mark == Some(clock[i])
    ensures Attempts(streams, errored)[i].mark == errored[i]
  {
  }

  // ── Watchers of several namespaces sharing one cache ───────────────────────

  /** A watcher handles an event, or loses its connection and marks the whole cache. */
  datatype Move = Route(watcher: string, e: Event) | Drop(watcher: string, now: real)

  /** The cache all watchers write to, the relist each has open, and who has lost a
      connection before and therefore batches. */
  datatype Shared = Shared(cache: Cache, relists: map<string, seq<Object>>, dropped: set<string>)

  function RelistOf(s: Shared, w: string): (buffer: Option<seq<Object>>) {
    if w in s.relists then Some(s.relists[w]) else None
  }

  function Moved(s: Shared, move: Move): (r: Shared) {
    match move
    case Route(w, e) =>
      var c := Routed(Conn(s.cache, RelistOf(s, w), 0), e, w in s.dropped);
      Shared(c.cache, if c.relist.Some? then s.relists[w := c.relist.value] else s.relists - {w}, s.dropped)
    case Drop(w, now) => Shared(AllStale(s.cache, now), s.relists - {w}, s.dropped + {w})
  }

  function SharedRun(m: Cache, moves: seq<Move>): (s: Shared) {
    if moves == [] then Shared(m, map[], {}) else Moved(SharedRun(m, moves[..|moves| - 1]), moves[|moves| - 1])
  }

  /** The events of a watcher's present connection. */
  function OwnEvents(moves: seq<Move>, w: string): (es: seq<Event>) {
    if moves == [] then []
    else
      var es := OwnEvents(moves[..|moves| - 1], w);
      match moves[|moves| - 1]
      case Route(v, e) => if v == w then es + [e] else es
      case Drop(v, _) => if v == w then [] else es
  }

  predicate HasDropped(moves: seq<Move>, w: string) {
    var n := |moves| - 1;
    moves != [] && (HasDropped(moves[..n], w) || (moves[n].Drop? && moves[n].watcher == w))
  }

  /** What one move commits: its own connection decides for an event, a drop marks. */
  function MoveFacts(before: seq<Move>, move: Move): (fs: seq<Fact>) {
    match move
    case Route(w, e) => Commit(Listing(OwnEvents(before, w), HasDropped(before, w)), e)
    case Drop(_, now) => [Marked(now)]
  }

  function SharedHistory(moves: seq<Move>): (fs: seq<Fact>) {
    if moves == [] then []
    else SharedHistory(moves[..|moves| - 1]) + MoveFacts(moves[..|moves| - 1], moves[|moves| - 1])
  }

  lemma ListingOneMore(es: seq<Event>, e: Event, c: Conn, batch: bool)
    requires c.relist == Listing(es, batch)
    ensures Listing(es + [e], batch) == Routed(c, e, batch).relist
  {
    assert (es + [e])[..|es|] == es;
  }

  /** A watcher's buffer is the one its own connection has built up, whatever the
      other watchers do. */
  lemma {:induction false} BuffersAreOwn(m: Cache, moves: seq<Move>, w: string)
    ensures RelistOf(SharedRun(m, moves), w) == Listing(OwnEvents(moves, w), HasDropped(moves, w))
    ensures w in SharedRun(m, moves).dropped <==> HasDropped(moves, w)
  {
    if moves != [] {
      var before, move := moves[..|moves| - 1], moves[|moves| - 1];
      BuffersAreOwn(m, before, w);
      if move.Route? && move.watcher == w {
        var s := SharedRun(m, before);
        ListingOneMore(OwnEvents(before, w), move.e, Conn(s.cache, RelistOf(s, w), 0), w in s.dropped);
      }
    }
  }

  lemma {:induction false} SharedIsItsHistory(m: Cache, moves: seq<Move>)
    ensures SharedRun(m, moves).cache == Rebuilt(m, SharedHistory(moves))
  {
    if moves != [] {
      var before, move := moves[..|moves| - 1], moves[|moves| - 1];
      SharedIsItsHistory(m, before);
      RebuiltConcat(m, SharedHistory(before), MoveFacts(before, move));
      match move {
        case Route(w, e) =>
          BuffersAreOwn(m, before, w);
          var s := SharedRun(m, before);
          EventIsItsCommit(Conn(s.cache, RelistOf(s, w), 0), e, w in s.dropped);
        case Drop(_, now) => assert [Marked(now)][..0] == [];
      }
    }
  }

  /** For watchers of any number of namespaces interleaved in any way on one cache: a
      key's payload is that of the last upsert any of them committed for it, and it is
      stale, since the last drop of any watcher, exactly if not committed since. */
  lemma SharedLastKnownGood(m: Cache, moves: seq<Move>, k: Target)
    ensures LastGood(m, SharedHistory(moves), k, SharedRun(m, moves).cache)
  {
    SharedIsItsHistory(m, moves);
    EntryOf(m, SharedHistory(moves), k);
    UpsertedUnder(SharedHistory(moves), k);
  }

  /** Each watcher is served objects of its own namespace only. */
  ghost predicate Namespaced(moves: seq<Move>) {
    forall i :: 0 <= i < |moves| && moves[i].Route? ==> Within(moves[i].e, moves[i].watcher)
  }

  predicate Within(e: Event, w: string) {
    !e.Init? && !e.InitDone? && e.parsed.Some? ==> e.parsed.value.key.namespace == w
  }

  function Own(moves: seq<Move>, w: string): (own: seq<Move>) {
    if moves == [] then []
    else
      var n := |moves| - 1;
      if moves[n].watcher == w then Own(moves[..n], w) + [moves[n]] else Own(moves[..n], w)
  }

  lemma {:induction false} OwnIsEnough(moves: seq<Move>, w: string)
    ensures OwnEvents(Own(moves, w), w) == OwnEvents(moves, w)
    ensures HasDropped(Own(moves, w), w) == HasDropped(moves, w)
  {
    if moves != [] {
      var n := |moves| - 1;
      OwnIsEnough(moves[..n], w);
      if moves[n].watcher == w {
        assert Own(moves, w)[..|Own(moves, w)| - 1] == Own(moves[..n], w);
      }
    }
  }

  lemma {:induction false} BufferWithin(moves: seq<Move>, w: string)
    requires Namespaced(moves)
    ensures var buffer := Listing(OwnEvents(moves, w), HasDropped(moves, w));
            buffer.Some? ==> forall i :: 0 <= i < |buffer.value| ==> buffer.value[i].key.namespace == w
  {
    if moves != [] {
      var before, move := moves[..|moves| - 1], moves[|moves| - 1];
      BufferWithin(before, w);
      if move.Route? && move.watcher == w {
        var es, batch := OwnEvents(before, w), HasDropped(before, w);
        ListingOneMore(es, move.e, RunFrom(Fresh(map[]), es, batch), batch);
      }
    }
  }

  lemma {:induction false} LatestConcat(fs: seq<Fact>, gs: seq<Fact>, k: Target)
    ensures LatestUpsert(fs + gs, k) ==
            match LatestUpsert(gs, k) case Some(o) => Some(o) case None => LatestUpsert(fs, k)
  {
    if gs == [] {
      assert fs + gs == fs;
    } else {
      assert (fs + gs)[..|fs + gs| - 1] == fs + gs[..|gs| - 1];
      LatestConcat(fs, gs[..|gs| - 1], k);
    }
  }

  lemma {:induction false} NoUpsertOf(fs: seq<Fact>, k: Target)
    requires forall i :: 0 <= i < |fs| && fs[i].Upserted? ==> fs[i].o.key != k
    ensures LatestUpsert(fs, k).None?
  {
    if fs != [] { NoUpsertOf(fs[..|fs| - 1], k); }
  }

  lemma OwnMoveAdds(before: seq<Move>, move: Move, k: Target)
    requires move.watcher == k.namespace
    ensures var own := Own(before, k.namespace);
            LatestUpsert(SharedHistory(own + [move]), k) ==
            match LatestUpsert(MoveFacts(before, move), k)
            case Some(o) => Some(o)
            case None => LatestUpsert(SharedHistory(own), k)
  {
    var own := Own(before, k.namespace);
    OwnIsEnough(before, k.namespace);
    assert (own + [move])[..|own|] == own;
    LatestConcat(SharedHistory(own), MoveFacts(own, move), k);
  }

  lemma ForeignMoveAddsNothing(before: seq<Move>, move: Move, k: Target)
    requires Namespaced(before) && (move.Route? ==> Within(move.e, move.watcher)) && move.watcher != k.namespace
    ensures LatestUpsert(MoveFacts(before, move), k).None?
  {
    BufferWithin(before, move.watcher);
    NoUpsertOf(MoveFacts(before, move), k);
  }

  /** A key's payload is the business of its own namespace's watcher alone; only its
      staleness depends on the others. */
  lemma {:induction false} PayloadIsOwn(moves: seq<Move>, k: Target)
    requires Namespaced(moves)
    ensures LatestUpsert(SharedHistory(moves), k) == LatestUpsert(SharedHistory(Own(moves, k.namespace)), k)
  {
    if moves != [] {
      var before, move := moves[..|moves| - 1], moves[|moves| - 1];
      PayloadIsOwn(before, k);
      LatestConcat(SharedHistory(before), MoveFacts(before, move), k);
      if move.watcher == k.namespace {
        OwnMoveAdds(before, move, k);
      } else {
        ForeignMoveAddsNothing(before, move, k);
      }
    }
  }

  // ── The watchers, in place ─────────────────────────────────────────────────

  function Upserts(os: seq<Object>): (xs: seq<Mutation>)
    ensures |xs| == |os| && forall i :: 0 <= i < |os| ==> xs[i] == Upsert(Snap(os[i]))
  {
    seq(|os|, i requires 0 <= i < |os| => Upsert(Snap(os[i])))
  }

  lemma {:induction false} BatchIsPutAll(m: Cache, os: seq<Object>)
    ensures MutatedAll(m, Upserts(os)) == PutAll(m, os)
  {
    if os != [] {
      var n := |os| - 1;
      BatchIsPutAll(m, os[..n]);
      assert Upserts(os) == Upserts(os[..n]) + [Upsert(Snap(os[n]))];
      MutatedAllConcat(m, Upserts(os[..n]), [Upsert(Snap(os[n]))]);
    }
  }

  /** What a secret subscriber is told about an event. */
  datatype Notice = Modified(o: Object) | Deleted(o: Object)

  function Notices(e: Event): (ns: seq<Notice>) {
    match e
    case Apply(Some(o)) => [Modified(o)]
    case InitApply(Some(o)) => [Modified(o)]
    case Delete(Some(o)) => [Deleted(o)]
    case _ => []
  }

  function AllNotices(es: seq<Event>): (ns: seq<Notice>) {
    if es == [] then [] else AllNotices(es[..|es| - 1]) + Notices(es[|es| - 1])
  }

  function NoticesOver(streams: seq<seq<Event>>): (ns: seq<Notice>) {
    if streams == [] then []
    else NoticesOver(streams[..|streams| - 1]) + AllNotices(streams[|streams| - 1])
  }

  lemma NoticesOnceMore(before: seq<Notice>, streams: seq<seq<Event>>, n: nat)
    requires n < |streams|
    ensures before + NoticesOver(streams[..n]) + AllNotices(streams[n]) == before + NoticesOver(streams[..n + 1])
  {
    assert streams[..n + 1][..n] == streams[..n];
  }

  /** The secret watcher; the config watcher is the same without the broadcast. */
  class SecretWatcher {
    const cache: ConfigCache
    var sent: seq<Notice>

    constructor (cache: ConfigCache)
      ensures this.cache == cache && sent == []
    {
      this.cache := cache;
      sent := [];
    }

    method HandleEvent(e: Event)
      modifies this, cache
      ensures cache.inner == Handled(old(cache.inner), e)
      ensures cache.writes == old(cache.writes) + if Delivered(e).Some? then 1 else 0
      ensures sent == old(sent) + Notices(e)
      ensures (e.Apply? || e.InitApply?) && e.parsed.Some? ==> sent == old(sent) + [Modified(e.parsed.value)]
      ensures e.Delete? && e.parsed.Some? ==> sent == old(sent) + [Deleted(e.parsed.value)]
      ensures e.Init? || e.InitDone? || e.parsed.None? ==> sent == old(sent)
    {
      match e {
        case Apply(Some(o)) =>
          cache.Update(Snap(o));
          sent := sent + [Modified(o)];
        case InitApply(Some(o)) =>
          cache.Update(Snap(o));
          sent := sent + [Modified(o)];
        case Delete(Some(o)) =>
          sent := sent + [Deleted(o)];
        case _ =>
      }
    }

    /** One step of the relist machine; a buffered secret is broadcast all the same. */
    method RouteEvent(e: Event, relist: Option<seq<Object>>, batch: bool) returns (next: Option<seq<Object>>)
      modifies this, cache
      ensures Conn(cache.inner, next, cache.writes) ==
              Routed(Conn(old(cache.inner), relist, old(cache.writes)), e, batch)
      ensures sent == old(sent) + Notices(e)
    {
      next := relist;
      if relist.Some? {
        match e {
          case InitApply(parsed) =>
            if parsed.Some? {
              next := Some(relist.value + [parsed.value]);
              sent := sent + [Modified(parsed.value)];
            }
          case InitDone =>
            BatchIsPutAll(cache.inner, relist.value);
            var _ := cache.ApplyBatch(Upserts(relist.value));
            next := None;
          case _ => HandleEvent(e);
        }
      } else if batch && e.Init? {
        next := Some([]);
      } else {
        HandleEvent(e);
      }
    }

    /** One connection.  The buffer dies with it; subscribers hear of every object,
        batched or not, in stream order. */
    method Pump(es: seq<Event>, batch: bool)
      modifies this, cache
      ensures cache.inner == RunFrom(Fresh(old(cache.inner)), es, batch).cache
      ensures sent == old(sent) + AllNotices(es)
    {
      var relist: Option<seq<Object>> := None;
      ghost var start := Conn(cache.inner, None, cache.writes);
      for n := 0 to |es|
        invariant Conn(cache.inner, relist, cache.writes) == RunFrom(start, es[..n], batch)
        invariant sent == old(sent) + AllNotices(es[..n])
      {
        assert es[..n + 1][..n] == es[..n];
        relist := RouteEvent(es[n], relist, batch);
      }
      assert es[..|es|] == es;
      SwapsDoNotMatter(start, es, batch);
    }

    /** One connection and the disconnect mark that follows it. */
    method RunOnce(es: seq<Event>, batch: bool, now: real)
      modifies this, cache
      ensures cache.inner == AllStale(RunFrom(Fresh(old(cache.inner)), es, batch).cache, now)
      ensures sent == old(sent) + AllNotices(es)
    {
      Pump(es, batch);
      cache.MarkAllStale(now);
    }

    /** The reconnect loop of the secret watcher: every connection after the first is
        batched, and every disconnect marks the cache. */
    method RunWithReconnect(streams: seq<seq<Event>>, clock: seq<real>)
      requires |streams| == |clock|
      modifies this, cache
      ensures cache.inner == Lived(old(cache.inner), Reconnecting(streams, clock))
      ensures sent == old(sent) + NoticesOver(streams)
    {
      for n := 0 to |streams|
        invariant cache.inner == Lived(old(cache.inner), Reconnecting(streams[..n], clock[..n]))
        invariant sent == old(sent) + NoticesOver(streams[..n])
      {
        NoticesOnceMore(old(sent), streams, n);
        RunOnce(streams[n], n > 0, clock[n]);
        ReconnectOnceMore(old(cache.inner), streams, clock, n);
      }
      assert streams[..|streams|] == streams && clock[..|clock|] == clock;
    }
  }

  lemma {:induction false} SwapsDoNotMatter(c: Conn, es: seq<Event>, batch: bool)
    ensures var d := RunFrom(c.(swaps := 0), es, batch);
            RunFrom(c, es, batch).cache == d.cache && RunFrom(c, es, batch).relist == d.relist
  {
    if es != [] { SwapsDoNotMatter(c, es[..|es| - 1], batch); }
  }

  lemma ReconnectOnceMore(m: Cache, streams: seq<seq<Event>>, clock: seq<real>, n: nat)
    requires n < |streams| == |clock|
    ensures Lived(m, Reconnecting(streams[..n + 1], clock[..n + 1])) ==
            var before := Lived(m, Reconnecting(streams[..n], clock[..n]));
            AllStale(RunFrom(Fresh(before), streams[n], n > 0).cache, clock[n])
  {
    var conns := Reconnecting(streams[..n + 1], clock[..n + 1]);
    assert conns[..n] == Reconnecting(streams[..n], clock[..n]);
  }

  function Reconnecting(streams: seq<seq<Event>>, clock: seq<real>): (conns: seq<Connection>)
    requires |streams| == |clock|
  {
    seq(|streams|, i requires 0 <= i < |streams| => Connection(streams[i], i > 0, Some(clock[i])))
  }

  /** The config watcher. */
  class ConfigWatcher {
    const cache: ConfigCache

    constructor (cache: ConfigCache)
      ensures this.cache == cache
    {
      this.cache := cache;
    }

    method RouteEvent(e: Event, relist: Option<seq<Object>>, batch: bool) returns (next: Option<seq<Object>>)
      modifies cache
      ensures Conn(cache.inner, next, cache.writes) ==
              Routed(Conn(old(cache.inner), relist, old(cache.writes)), e, batch)
    {
      next := relist;
      if relist.Some? && e.InitApply? {
        if e.parsed.Some? { next := Some(relist.value + [e.parsed.value]); }
      } else if relist.Some? && e.InitDone? {
        BatchIsPutAll(cache.inner, relist.value);
        var _ := cache.ApplyBatch(Upserts(relist.value));
        next := None;
      } else if relist.None? && batch && e.Init? {
        next := Some([]);
      } else if (e.Apply? || e.InitApply?) && e.parsed.Some? {
        cache.Update(Snap(e.parsed.value));
      }
    }

    method Pump(es: seq<Event>, batch: bool)
      modifies cache
      ensures cache.inner == RunFrom(Fresh(old(cache.inner)), es, batch).cache
    {
      var relist: Option<seq<Object>> := None;
      ghost var start := Conn(cache.inner, None, cache.writes);
      for n := 0 to |es|
        invariant Conn(cache.inner, relist, cache.writes) == RunFrom(start, es[..n], batch)
      {
        assert es[..n + 1][..n] == es[..n];
        relist := RouteEvent(es[n], relist, batch);
      }
      assert es[..|es|] == es;
      SwapsDoNotMatter(start, es, batch);
    }

    /** The reconnect loop of the config watcher: a stream error marks the cache stale
        and reconnects with batching on; a clean end returns.  `errored[i]` holds the
        instant of the error that ended stream `i`. */
    method Run(streams: seq<seq<Event>>, errored: seq<Option<real>>) returns (used: nat)
      requires |streams| == |errored|
      modifies cache
      ensures used <= |streams|
      ensures cache.inner == Lived(old(cache.inner), Attempts(streams[..used], errored[..used]))
      ensures forall i :: 0 <= i < used - 1 ==> errored[i].Some?
      ensures used < |streams| ==> used > 0 && errored[used - 1].None?
    {
      used := 0;
      while used < |streams|
        invariant used <= |streams|
        invariant cache.inner == Lived(old(cache.inner), Attempts(streams[..used], errored[..used]))
        invariant forall i :: 0 <= i < used ==> errored[i].Some?
      {
        Pump(streams[used], used > 0);
        if errored[used].Some? {
          cache.MarkAllStale(errored[used].value);
        }
        used := used + 1;
        ghost var conns := Attempts(streams[..used], errored[..used]);
        assert conns[..used - 1] == Attempts(streams[..used - 1], errored[..used - 1]);
        if errored[used - 1].None? { return; }
      }
    }
  }

  function Attempts(streams: seq<seq<Event>>, errored: seq<Option<real>>): (conns: seq<Connection>)
    requires |streams| == |errored|
  {
    seq(|streams|, i requires 0 <= i < |streams| => Connection(streams[i], i > 0, errored[i]))
  }
}
