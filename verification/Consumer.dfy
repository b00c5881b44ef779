/**
 The consumer's stream driver (rust/konfig-consumer/src/stream.rs): one subscription covers
 several names; events are demultiplexed into one store per name, failures mark the stores
 stale, and a reconnect resumes from the last resource version seen.
 */
module Consumer {
  import opened Common

  /** A published snapshot; the payload stands for content, version and revision. */
  datatype Snapshot = Snapshot(payload: string, staleSince: Option<real>)

  datatype EventType = Added | Modified | Snapshotted | Deleted

  /** A config on the wire; `parsed` is what its content parses to. */
  datatype Config = Config(name: string, resourceVersion: string, parsed: Option<string>)

  datatype Event = Event(eventType: EventType, config: Option<Config>)

  type Stores = map<string, Snapshot>

  // ── What happened to a driver, in order ────────────────────────────────────

  /** An event received, or a failure that marked the stores at some instant. */
  datatype Input = Got(event: Event) | Failure(now: real)

  /** The snapshot an event publishes for `name`, if any. */
  function Published(e: Event, name: string): (payload: Option<string>) {
    match e.config
    case Some(c) => if c.name == name && e.eventType != Deleted then c.parsed else None
    case None => None
  }

  /** The last parseable snapshot received for `name`. */
  function LastPublished(inputs: seq<Input>, name: string): (payload: Option<string>) {
    if inputs == [] then None
    else
      var x := inputs[|inputs| - 1];
      if x.Got? && Published(x.event, name).Some? then Published(x.event, name)
      else LastPublished(inputs[..|inputs| - 1], name)
  }

  /** The first failure since that snapshot. */
  function FirstFailureSince(inputs: seq<Input>, name: string): (now: Option<real>) {
    if inputs == [] then None
    else
      var x, before := inputs[|inputs| - 1], FirstFailureSince(inputs[..|inputs| - 1], name);
      match x
      case Got(e) => if Published(e, name).Some? then None else before
      case Failure(now) => if before.Some? then before else Some(now)
  }

  /** The last non-empty resource version received, of any name. */
  function LastVersion(inputs: seq<Input>, start: string): (rv: string) {
    if inputs == [] then start
    else
      var x := inputs[|inputs| - 1];
      if x.Got? && x.event.config.Some? && x.event.config.value.resourceVersion != ""
      then x.event.config.value.resourceVersion
      else LastVersion(inputs[..|inputs| - 1], start)
  }

  // ── The driver's own steps ─────────────────────────────────────────────────

  function Applied(stores: Stores, e: Event): (r: Stores) {
    match e.config
    case None => stores
    case Some(c) =>
      if c.name in stores && e.eventType != Deleted && c.parsed.Some?
      then stores[c.name := Snapshot(c.parsed.value, None)] else stores
  }

  function Marked(stores: Stores, now: real): (r: Stores) {
    map name | name in stores ::
      if stores[name].staleSince.Some? then stores[name] else stores[name].(staleSince := Some(now))
  }

  function Folded(stores: Stores, inputs: seq<Input>): (r: Stores) {
    if inputs == [] then stores
    else
      var before := Folded(stores, inputs[..|inputs| - 1]);
      match inputs[|inputs| - 1]
      case Got(e) => Applied(before, e)
      case Failure(now) => Marked(before, now)
  }

  /** Every store agrees with its history: it holds the last snapshot published for its
      name, else the one it started with, stale since the first failure after that.
      No other name ever gets a store. */
  lemma {:induction false} StoresAgreeWithHistory(stores: Stores, inputs: seq<Input>, name: string)
    ensures name in Folded(stores, inputs) <==> name in stores
    ensures name in stores ==>
              var r := Folded(stores, inputs)[name];
              match LastPublished(inputs, name)
              case Some(p) => r.payload == p && r.staleSince == FirstFailureSince(inputs, name)
              case None =>
                && r.payload == stores[name].payload
                && r.staleSince == if stores[name].staleSince.Some? then stores[name].staleSince
                                   else FirstFailureSince(inputs, name)
  {
    if inputs != [] { StoresAgreeWithHistory(stores, inputs[..|inputs| - 1], name); }
  }

  /** The inputs that can matter to one name: events carrying it, and failures. */
  predicate Concerns(x: Input, name: string) {
    match x
    case Got(e) => e.config.Some? && e.config.value.name == name
    case Failure(_) => true
  }

  function Concerning(inputs: seq<Input>, name: string): (r: seq<Input>) {
    if inputs == [] then []
    else
      var n := |inputs| - 1;
      if Concerns(inputs[n], name) then Concerning(inputs[..n], name) + [inputs[n]] else Concerning(inputs[..n], name)
  }

  lemma {:induction false} ConcerningSuffices(inputs: seq<Input>, name: string)
    ensures LastPublished(Concerning(inputs, name), name) == LastPublished(inputs, name)
    ensures FirstFailureSince(Concerning(inputs, name), name) == FirstFailureSince(inputs, name)
  {
    if inputs != [] {
      var n := |inputs| - 1;
      ConcerningSuffices(inputs[..n], name);
      var r := Concerning(inputs[..n], name);
      if Concerns(inputs[n], name) { assert (r + [inputs[n]])[..|r|] == r; }
    }
  }

  /** Demultiplexing isolates the names: a store depends only on the events that carry its
      name and on the failures. */
  lemma StoresAreIsolated(stores: Stores, inputs: seq<Input>, inputs': seq<Input>, name: string)
    requires name in stores
    requires Concerning(inputs, name) == Concerning(inputs', name)
    ensures name in Folded(stores, inputs) && name in Folded(stores, inputs')
    ensures Folded(stores, inputs)[name] == Folded(stores, inputs')[name]
  {
    StoresAgreeWithHistory(stores, inputs, name);
    StoresAgreeWithHistory(stores, inputs', name);
    ConcerningSuffices(inputs, name);
    ConcerningSuffices(inputs', name);
  }

  /** In particular an event of another name, or without a config, leaves no trace in a
      store, wherever it falls. */
  lemma ForeignEventIsInvisible(stores: Stores, xs: seq<Input>, e: Event, ys: seq<Input>, name: string)
    requires name in stores && (e.config.None? || e.config.value.name != name)
    ensures name in Folded(stores, xs + [Got(e)] + ys) && name in Folded(stores, xs + ys)
    ensures Folded(stores, xs + [Got(e)] + ys)[name] == Folded(stores, xs + ys)[name]
  {
    ConcerningConcat(xs + [Got(e)], ys, name);
    ConcerningConcat(xs, [Got(e)], name);
    ConcerningConcat(xs, ys, name);
    assert [Got(e)][..0] == [];
    assert Concerning(xs, name) + [] == Concerning(xs, name);
    StoresAreIsolated(stores, xs + [Got(e)] + ys, xs + ys, name);
  }

  lemma {:induction false} ConcerningConcat(xs: seq<Input>, ys: seq<Input>, name: string)
    ensures Concerning(xs + ys, name) == Concerning(xs, name) + Concerning(ys, name)
  {
    if ys == [] {
      assert xs + ys == xs;
    } else {
      assert (xs + ys)[..|xs + ys| - 1] == xs + ys[..|ys| - 1];
      ConcerningConcat(xs, ys[..|ys| - 1], name);
    }
  }

  lemma {:induction false} FoldedConcat(stores: Stores, xs: seq<Input>, ys: seq<Input>)
    ensures Folded(stores, xs + ys) == Folded(Folded(stores, xs), ys)
  {
    if ys == [] {
      assert xs + ys == xs;
    } else {
      assert (xs + ys)[..|xs + ys| - 1] == xs + ys[..|ys| - 1];
      FoldedConcat(stores, xs, ys[..|ys| - 1]);
    }
  }

  lemma {:induction false} LastVersionConcat(xs: seq<Input>, ys: seq<Input>, start: string)
    ensures LastVersion(xs + ys, start) == LastVersion(ys, LastVersion(xs, start))
  {
    if ys == [] {
      assert xs + ys == xs;
    } else {
      assert (xs + ys)[..|xs + ys| - 1] == xs + ys[..|ys| - 1];
      LastVersionConcat(xs, ys[..|ys| - 1], start);
    }
  }

  // ── The driver, in place ───────────────────────────────────────────────────

  /** One turn of the reconnect loop: the RPC is refused, or a stream opens, delivers its
      events and ends, cleanly or with an error at some instant. */
  datatype Turn = Refused(now: real) | Opened(events: seq<Event>, error: Option<real>)

  function Gots(es: seq<Event>): (xs: seq<Input>)
    ensures |xs| == |es| && forall i :: 0 <= i < |es| ==> xs[i] == Got(es[i])
  {
    seq(|es|, i requires 0 <= i < |es| => Got(es[i]))
  }

  function InputsOf(t: Turn): (xs: seq<Input>) {
    match t
    case Refused(now) => [Failure(now)]
    case Opened(es, Some(now)) => Gots(es) + [Failure(now)]
    case Opened(es, None) => Gots(es)
  }

  function AllInputs(turns: seq<Turn>): (xs: seq<Input>) {
    if turns == [] then [] else AllInputs(turns[..|turns| - 1]) + InputsOf(turns[|turns| - 1])
  }

  /** The cursors the turns of a run start from. */
  function Cursors(turns: seq<Turn>, start: string): (rvs: seq<string>)
    ensures |rvs| == |turns|
  {
    seq(|turns|, i requires 0 <= i < |turns| => LastVersion(AllInputs(turns[..i]), start))
  }

  lemma {:induction false} OneMoreTurn(turns: seq<Turn>, t: Turn, stores: Stores, start: string)
    ensures Folded(stores, AllInputs(turns + [t])) == Folded(Folded(stores, AllInputs(turns)), InputsOf(t))
    ensures LastVersion(AllInputs(turns + [t]), start) == LastVersion(InputsOf(t), LastVersion(AllInputs(turns), start))
    ensures Cursors(turns + [t], start) == Cursors(turns, start) + [LastVersion(AllInputs(turns), start)]
  {
    assert (turns + [t])[..|turns|] == turns;
    assert forall i :: 0 <= i < |turns| ==> (turns + [t])[..i] == turns[..i];
    FoldedConcat(stores, AllInputs(turns), InputsOf(t));
    LastVersionConcat(AllInputs(turns), InputsOf(t), start);
  }

  // ── Turns and cursors, spelled out ─────────────────────────────────────────

  /** A refused RPC and a stream error leave every payload as delivered and mark what is not
      marked yet; a clean end marks nothing. */
  lemma TurnMeaning(stores: Stores, t: Turn, name: string)
    requires name in stores
    ensures var after := Folded(stores, InputsOf(t));
            var delivered := if t.Opened? then Folded(stores, Gots(t.events)) else stores;
            var now := if t.Refused? then Some(t.now) else t.error;
            && name in after && name in delivered
            && after[name].payload == delivered[name].payload
            && after[name].staleSince ==
               if delivered[name].staleSince.Some? then delivered[name].staleSince else now
  {
    StoresAgreeWithHistory(stores, InputsOf(t), name);
    match t {
      case Refused(now) => assert [Failure(now)][..0] == [];
      case Opened(es, error) =>
        StoresAgreeWithHistory(stores, Gots(es), name);
        if error.Some? { assert (Gots(es) + [Failure(error.value)])[..|es|] == Gots(es); }
    }
  }

  /** The event brings a resource version. */
  predicate Versioned(e: Event) {
    e.config.Some? && e.config.value.resourceVersion != ""
  }

  predicate Silent(t: Turn) {
    t.Opened? ==> forall j :: 0 <= j < |t.events| ==> !Versioned(t.events[j])
  }

  /** A turn resumes from the last resource version any earlier event brought. */
  lemma {:induction false} ResumesFromLastSeen(turns: seq<Turn>, start: string, t: nat, j: nat, i: nat)
    requires t < i < |turns| && turns[t].Opened? && j < |turns[t].events| && Versioned(turns[t].events[j])
    requires forall l :: j < l < |turns[t].events| ==> !Versioned(turns[t].events[l])
    requires forall u :: t < u < i ==> Silent(turns[u])
    ensures Cursors(turns, start)[i] == turns[t].events[j].config.value.resourceVersion
  {
    VersionAfter(turns, start, t, j, i);
  }

  /** Until one has, it resumes from where the driver started. */
  lemma {:induction false} ResumesFromStart(turns: seq<Turn>, start: string, i: nat)
    requires i < |turns| && forall u :: 0 <= u < i ==> Silent(turns[u])
    ensures Cursors(turns, start)[i] == start
  {
    if i > 0 {
      ResumesFromStart(turns, start, i - 1);
      VersionOneMore(turns, start, i);
      SilentTurn(turns[i - 1], start);
    }
  }

  lemma VersionOneMore(turns: seq<Turn>, start: string, i: nat)
    requires 0 < i <= |turns|
    ensures LastVersion(AllInputs(turns[..i]), start) ==
            LastVersion(InputsOf(turns[i - 1]), LastVersion(AllInputs(turns[..i - 1]), start))
  {
    assert turns[..i][..i - 1] == turns[..i - 1];
    LastVersionConcat(AllInputs(turns[..i - 1]), InputsOf(turns[i - 1]), start);
  }

  lemma {:induction false} VersionAfter(turns: seq<Turn>, start: string, t: nat, j: nat, i: nat)
    requires t < i <= |turns| && turns[t].Opened? && j < |turns[t].events| && Versioned(turns[t].events[j])
    requires forall l :: j < l < |turns[t].events| ==> !Versioned(turns[t].events[l])
    requires forall u :: t < u < i ==> Silent(turns[u])
    ensures LastVersion(AllInputs(turns[..i]), start) == turns[t].events[j].config.value.resourceVersion
    decreases i
  {
    VersionOneMore(turns, start, i);
    var before := LastVersion(AllInputs(turns[..i - 1]), start);
    if t < i - 1 {
      VersionAfter(turns, start, t, j, i - 1);
      SilentTurn(turns[i - 1], before);
    } else {
      LastInTurn(turns[t], before, j);
    }
  }

  lemma {:induction false} NoneVersioned(es: seq<Event>, start: string)
    requires forall j :: 0 <= j < |es| ==> !Versioned(es[j])
    ensures LastVersion(Gots(es), start) == start
  {
    if es != [] {
      var n := |es| - 1;
      NoneVersioned(es[..n], start);
      assert Gots(es)[..n] == Gots(es[..n]);
    }
  }

  lemma {:induction false} LastVersioned(es: seq<Event>, start: string, j: nat)
    requires j < |es| && Versioned(es[j]) && forall l :: j < l < |es| ==> !Versioned(es[l])
    ensures LastVersion(Gots(es), start) == es[j].config.value.resourceVersion
  {
    var n := |es| - 1;
    if j < n {
      LastVersioned(es[..n], start, j);
      assert Gots(es)[..n] == Gots(es[..n]);
    }
  }

  lemma FailureKeepsVersion(xs: seq<Input>, now: real, start: string)
    ensures LastVersion(xs + [Failure(now)], start) == LastVersion(xs, start)
  {
    assert (xs + [Failure(now)])[..|xs|] == xs;
  }

  lemma SilentTurn(t: Turn, start: string)
    requires Silent(t)
    ensures LastVersion(InputsOf(t), start) == start
  {
    match t {
      case Refused(now) =>
        FailureKeepsVersion([], now, start);
        assert [] + [Failure(now)] == [Failure(now)];
      case Opened(es, error) =>
        NoneVersioned(es, start);
        if error.Some? { FailureKeepsVersion(Gots(es), error.value, start); }
    }
  }

  lemma LastInTurn(t: Turn, start: string, j: nat)
    requires t.Opened? && j < |t.events| && Versioned(t.events[j])
    requires forall l :: j < l < |t.events| ==> !Versioned(t.events[l])
    ensures LastVersion(InputsOf(t), start) == t.events[j].config.value.resourceVersion
  {
    LastVersioned(t.events, start, j);
    if t.error.Some? { FailureKeepsVersion(Gots(t.events), t.error.value, start); }
  }

  class StreamDriver {
    var stores: Stores
    var resumeRv: string

    constructor (names: set<string>, default_: string)
      ensures stores == map name | name in names :: Snapshot(default_, None)
      ensures resumeRv == ""
    {
      stores := map name | name in names :: Snapshot(default_, None);
      resumeRv := "";
    }

    /** Demultiplexes one event; the cursor moves whether or not the name is tracked. */
    method Apply(e: Event)
      modifies this
      ensures stores == Applied(old(stores), e)
      ensures resumeRv == LastVersion([Got(e)], old(resumeRv))
      ensures e.config.None? ==> stores == old(stores) && resumeRv == old(resumeRv)
      ensures e.config.Some? ==>
                var c := e.config.value;
                && resumeRv == (if c.resourceVersion != "" then c.resourceVersion else old(resumeRv))
                && stores == if c.name in old(stores) && e.eventType != Deleted && c.parsed.Some?
                             then old(stores)[c.name := Snapshot(c.parsed.value, None)] else old(stores)
    {
      assert [Got(e)][..0] == [];
      if e.config.None? { return; }
      var c := e.config.value;
      if c.resourceVersion != "" {
        resumeRv := c.resourceVersion;
      }
      if c.name !in stores { return; }
      match e.eventType {
        case Deleted =>
        case _ =>
          if c.parsed.Some? {
            stores := stores[c.name := Snapshot(c.parsed.value, None)];
          }
      }
    }

    /** Marks the stores that are not stale yet. */
    method MarkAllStale(now: real)
      modifies this`stores
      ensures stores == Marked(old(stores), now)
    {
      var rest := stores.Keys;
      while rest != {}
        invariant stores.Keys == old(stores).Keys && rest <= stores.Keys
        invariant forall name :: name in stores ==>
                    stores[name] == if name in rest then old(stores)[name] else Marked(old(stores), now)[name]
        decreases |rest|
      {
        var name :| name in rest;
        if stores[name].staleSince.None? {
          stores := stores[name := stores[name].(staleSince := Some(now))];
        }
        rest := rest - {name};
      }
    }

    /** Drains one stream. */
    method Pump(es: seq<Event>)
      modifies this
      ensures stores == Folded(old(stores), Gots(es))
      ensures resumeRv == LastVersion(Gots(es), old(resumeRv))
    {
      for n := 0 to |es|
        invariant stores == Folded(old(stores), Gots(es)[..n])
        invariant resumeRv == LastVersion(Gots(es)[..n], old(resumeRv))
      {
        assert Gots(es)[..n + 1] == Gots(es)[..n] + [Got(es[n])];
        LastVersionConcat(Gots(es)[..n], [Got(es[n])], old(resumeRv));
        assert Gots(es)[..n + 1][..n] == Gots(es)[..n];
        Apply(es[n]);
      }
      assert Gots(es)[..|es|] == Gots(es);
    }

    /** The reconnect loop.  A refused RPC and a stream error mark the stores; a clean end
        does not.  Every reconnect asks to resume from the cursor. */
    method Run(turns: seq<Turn>) returns (resumes: seq<string>)
      modifies this
      ensures stores == Folded(old(stores), AllInputs(turns))
      ensures resumeRv == LastVersion(AllInputs(turns), old(resumeRv))
      ensures resumes == Cursors(turns, old(resumeRv))
    {
      resumes := [];
      for n := 0 to |turns|
        invariant stores == Folded(old(stores), AllInputs(turns[..n]))
        invariant resumeRv == LastVersion(AllInputs(turns[..n]), old(resumeRv))
        invariant resumes == Cursors(turns[..n], old(resumeRv))
      {
        assert turns[..n + 1] == turns[..n] + [turns[n]];
        OneMoreTurn(turns[..n], turns[n], old(stores), old(resumeRv));
        resumes := resumes + [resumeRv];
        TakeTurn(turns[n]);
      }
      assert turns[..|turns|] == turns;
    }

    method TakeTurn(t: Turn)
      modifies this
      ensures stores == Folded(old(stores), InputsOf(t))
      ensures resumeRv == LastVersion(InputsOf(t), old(resumeRv))
    {
      match t {
        case Refused(now) =>
          assert [Failure(now)][..0] == [];
          MarkAllStale(now);
        case Opened(es, error) =>
          Pump(es);
          if error.Some? {
            assert (Gots(es) + [Failure(error.value)])[..|es|] == Gots(es);
            MarkAllStale(error.value);
          }
      }
    }
  }
}
