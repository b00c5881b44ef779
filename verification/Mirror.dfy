/**
 The running mirror of live objects behind the quota and ACL tables
 (rust/konfig/quota.rs `handle_quota_event`, rust/konfig/acl.rs `handle_acl_event`).

 Both watchers keep a map from object name to parsed object, forget an object on
 delete or when it no longer parses, and rebuild the published table from it.
 */
module Mirror {
  import opened Common

  /** A watch event.  `parsed` is what the object's spec parses to, if anything. */
  datatype Event<T> =
    | Apply(name: string, parsed: Option<T>)
    | InitApply(name: string, parsed: Option<T>)
    | Delete(name: string)
    | Init
    | InitDone

  /** Events that change the mirror and make the table be published again. */
  predicate Mutating<T>(e: Event<T>) {
    e.Apply? || e.InitApply? || e.Delete?
  }

  function Handle<T>(objects: map<string, T>, e: Event<T>): (r: map<string, T>) {
    match e
    case Apply(name, Some(x)) => objects[name := x]
    case InitApply(name, Some(x)) => objects[name := x]
    case Apply(name, None) => objects - {name}
    case InitApply(name, None) => objects - {name}
    case Delete(name) => objects - {name}
    case Init => objects
    case InitDone => objects
  }

  function Live<T>(events: seq<Event<T>>): (objects: map<string, T>) {
    if events == [] then map[] else Handle(Live(events[..|events| - 1]), events[|events| - 1])
  }

  /** `events[i]` is the last word on `name`, and it says `x`. */
  ghost predicate LastWord<T>(events: seq<Event<T>>, i: int, name: string, x: T) {
    && 0 <= i < |events|
    && (events[i] == Apply(name, Some(x)) || events[i] == InitApply(name, Some(x)))
    && forall j :: i < j < |events| && Mutating(events[j]) ==> events[j].name != name
  }

  ghost predicate Latest<T(!new)>(events: seq<Event<T>>, name: string, x: T) {
    exists i :: LastWord(events, i, name, x)
  }

  /** The mirror holds exactly the objects whose latest version parses and was not
      deleted, whatever relists happened in between. */
  lemma {:induction false} MirrorIsLatest<T(!new)>(events: seq<Event<T>>, name: string, x: T)
    ensures name in Live(events) && Live(events)[name] == x <==> Latest(events, name, x)
  {
    if events != [] {
      var n := |events| - 1;
      var before, e := events[..n], events[n];
      MirrorIsLatest(before, name, x);
      if Mutating(e) && e.name == name {
        if name in Live(events) && Live(events)[name] == x {
          assert LastWord(events, n, name, x);
        }
      } else {
        if Latest(before, name, x) {
          var i :| LastWord(before, i, name, x);
          assert LastWord(events, i, name, x);
        }
        if Latest(events, name, x) {
          var i :| LastWord(events, i, name, x);
          assert LastWord(before, i, name, x);
        }
      }
    }
  }

  // ── Runs of connections ────────────────────────────────────────────────────

  /** Some event of the connection changed the mirror. */
  predicate Changes<T>(events: seq<Event<T>>) {
    exists i :: 0 <= i < |events| && Mutating(events[i])
  }

  predicate Completes<T>(events: seq<Event<T>>) {
    exists i :: 0 <= i < |events| && events[i].InitDone?
  }

  lemma OneMoreEvent<T>(events: seq<Event<T>>, n: nat)
    requires n < |events|
    ensures events[..n + 1][..n] == events[..n]
    ensures Changes(events[..n + 1]) <==> Changes(events[..n]) || Mutating(events[n])
    ensures Completes(events[..n + 1]) <==> Completes(events[..n]) || events[n].InitDone?
  {
    var now := events[..n + 1];
    assert now[n] == events[n] && forall i :: 0 <= i < n ==> now[i] == events[..n][i];
  }

  /** The events behind the table in force.  Every connection starts an empty mirror, so
      they are those of the last connection that changed anything, up to now. */
  function InForce<T>(conns: seq<seq<Event<T>>>): (events: seq<Event<T>>) {
    if conns == [] then []
    else if Changes(conns[|conns| - 1]) then conns[|conns| - 1]
    else InForce(conns[..|conns| - 1])
  }

  /** The flag is never taken back. */
  predicate SyncedBy<T>(conns: seq<seq<Event<T>>>) {
    conns != [] && (Completes(conns[|conns| - 1]) || SyncedBy(conns[..|conns| - 1]))
  }
}
