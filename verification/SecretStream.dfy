/**
 The broadcast path of SubscribeSecrets (rust/konfig/grpc/subscribe_secrets.rs).

 The handler first pushes the cached secrets of a namespace into the subscriber's
 bounded channel, then attaches to the namespace's broadcast ring and forwards what
 arrives.  The channel's receiving end reaches the client only when the handler
 returns.  The sender, the forwarder, the client and shutdown run concurrently.
 */
module SecretStream {
  import opened Common

  /** Room in a subscriber's channel. */
  const CHANNEL: nat := 256

  /** Events a broadcast ring keeps for its slowest receiver. */
  const RING: nat := 1024

  /** A secret event; its content is opaque. */
  type Event = string

  datatype Failure = TooSlow | Lagged

  datatype Item = Secret(event: Event) | Failed(failure: Failure)

  function Items(es: seq<Event>): (xs: seq<Item>)
    ensures |xs| == |es| && forall i :: 0 <= i < |es| ==> xs[i] == Secret(es[i])
  {
    seq(|es|, i requires 0 <= i < |es| => Secret(es[i]))
  }

  lemma ItemsAppend(es: seq<Event>, e: Event)
    ensures Items(es + [e]) == Items(es) + [Secret(e)]
  {
  }

  // ── The snapshot phase, in place ───────────────────────────────────────────

  datatype Sent = Accepted | Full | Closed

  /** The sending end of a bounded channel. */
  class Channel {
    var queue: seq<Item>
    var closed: bool

    constructor ()
      ensures queue == [] && !closed
    {
      queue, closed := [], false;
    }

    method TrySend(x: Item) returns (r: Sent)
      modifies this
      ensures closed == old(closed)
      ensures r == if closed then Closed else if |old(queue)| < 256 then Accepted else Full
      ensures queue == if r == Accepted then old(queue) + [x] else old(queue)
    {
      if closed { return Closed; }
      if |queue| >= CHANNEL { return Full; }
      queue := queue + [x];
      r := Accepted;
    }
  }

  /** Pushes the snapshot.  Nobody drains the channel meanwhile, so it fits exactly when
      there is room for all of it; otherwise the channel is left full, and the failure
      notice that follows finds no room either. */
  method EmitSnapshotEvents(tx: Channel, snapshots: seq<Event>) returns (ok: bool)
    modifies tx
    ensures tx.closed == old(tx.closed)
    ensures !tx.closed && |old(tx.queue)| <= 256 ==> (ok <==> |old(tx.queue)| + |snapshots| <= 256)
    ensures ok ==> tx.queue == old(tx.queue) + Items(snapshots)
    ensures !ok && !tx.closed && |old(tx.queue)| <= 256 ==>
              tx.queue == old(tx.queue) + Items(snapshots[..256 - |old(tx.queue)|])
  {
    for i := 0 to |snapshots|
      invariant tx.closed == old(tx.closed)
      invariant tx.queue == old(tx.queue) + Items(snapshots[..i])
      invariant i > 0 ==> |tx.queue| <= CHANNEL
    {
      var r := tx.TrySend(Secret(snapshots[i]));
      assert snapshots[..i + 1] == snapshots[..i] + [snapshots[i]];
      ItemsAppend(snapshots[..i], snapshots[i]);
      match r {
        case Accepted =>
        case Full =>
          var _ := tx.TrySend(Failed(TooSlow));
          return false;
        case Closed =>
          return false;
      }
    }
    assert snapshots[..|snapshots|] == snapshots;
    ok := true;
  }

  // ── The protocol ───────────────────────────────────────────────────────────

  /** Where the server side of one subscription stands. */
  datatype Phase =
    | Emitting                     // pushing the snapshot, the client not yet connected
    | Overflowed                   // the snapshot did not fit, about to send the notice
    | Bridging                     // waiting for the next broadcast event or the drain
    | Holding(event: Event)        // received an event, about to push it
    | Failing(failure: Failure)    // about to send the failure notice
    | Finished                     // the sending end is gone

  /** `emitted` and `forwarded` count the snapshot and live events pushed; `ring` holds the
      events a receiver can still get, `sent` all there ever were; `cursor` is the
      receiver's position among these, `attached` its first one. */
  datatype State = State(
    phase: Phase, emitted: nat, attached: nat, cursor: nat, forwarded: nat, notice: Option<Failure>,
    ring: seq<Event>, sent: seq<Event>, queue: seq<Item>, connected: bool, gone: bool, delivered: seq<Item>)

  /** A full ring drops its oldest event for the new one. */
  function Pushed(ring: seq<Event>, e: Event): (r: seq<Event>) {
    if |ring| < RING then ring + [e] else ring[1..] + [e]
  }

  datatype Step =
    | Emit | NoticeOverflow | Attach | Refuse
    | Broadcast(event: Event)
    | Receive | Push | NoticeFailure | Shutdown | RingClosed
    | Take | Leave

  predicate Enabled(snap: seq<Event>, s: State, step: Step) {
    match step
    case Emit => s.phase == Emitting && s.emitted < |snap|
    case NoticeOverflow => s.phase == Overflowed
    case Attach => s.phase == Emitting && s.emitted == |snap|
    case Refuse => s.phase == Emitting && s.emitted == |snap|
    case Broadcast(_) => true
    case Receive => s.phase == Bridging && s.cursor < |s.sent|
    case Push => s.phase.Holding?
    case NoticeFailure => s.phase.Failing?
    case Shutdown => s.phase == Bridging
    case RingClosed => s.phase == Bridging && s.cursor == |s.sent|
    case Take => s.connected && !s.gone && s.queue != []
    case Leave => s.connected
  }

  function Next(snap: seq<Event>, s: State, step: Step): (s': State)
    requires Enabled(snap, s, step)
  {
    match step
    case Emit =>
      if |s.queue| < CHANNEL then s.(emitted := s.emitted + 1, queue := s.queue + [Secret(snap[s.emitted])])
      else s.(phase := Overflowed)
    case NoticeOverflow =>
      if |s.queue| < CHANNEL
      then s.(phase := Finished, notice := Some(TooSlow), queue := s.queue + [Failed(TooSlow)], connected := true)
      else s.(phase := Finished, connected := true)
    case Attach => s.(phase := Bridging, attached := |s.sent|, cursor := |s.sent|, connected := true)
    case Refuse => s.(phase := Finished)
    case Broadcast(e) => s.(ring := Pushed(s.ring, e), sent := s.sent + [e])
    case Receive =>
      var unread := |s.sent| - s.cursor;
      if unread > |s.ring| then s.(phase := Failing(Lagged))
      else s.(phase := Holding(s.ring[|s.ring| - unread]), cursor := s.cursor + 1)
    case Push =>
      if s.gone then s.(phase := Finished)
      else if |s.queue| < CHANNEL
      then s.(phase := Bridging, forwarded := s.forwarded + 1, queue := s.queue + [Secret(s.phase.event)])
      else s.(phase := Failing(TooSlow))
    case NoticeFailure =>
      if !s.gone && |s.queue| < CHANNEL
      then s.(phase := Finished, notice := Some(s.phase.failure), queue := s.queue + [Failed(s.phase.failure)])
      else s.(phase := Finished)
    case Shutdown => s.(phase := Finished)
    case RingClosed => s.(phase := Finished)
    case Take => s.(queue := s.queue[1..], delivered := s.delivered + [s.queue[0]])
    case Leave => s.(gone := true)
  }

  /** The ring is the most recent part of what was sent, as long as it can be. */
  predicate IsRecent(ring: seq<Event>, sent: seq<Event>) {
    && |ring| == (if |sent| <= RING then |sent| else RING)
    && ring == sent[|sent| - |ring|..]
  }

  predicate Initial(s: State) {
    && IsRecent(s.ring, s.sent)
    && s.phase == Emitting && s.emitted == 0 && s.attached == s.cursor == 0 && s.forwarded == 0
    && s.notice == None && s.queue == [] && s.delivered == [] && !s.connected && !s.gone
  }

  ghost predicate IsRun(snap: seq<Event>, states: seq<State>, steps: seq<Step>) {
    && |states| == |steps| + 1
    && Initial(states[0])
    && forall i :: 0 <= i < |steps| ==>
         Enabled(snap, states[i], steps[i]) && states[i + 1] == Next(snap, states[i], steps[i])
  }

  /** Everything pushed into the channel so far. */
  function Stream(s: State): (xs: seq<Item>) {
    s.delivered + s.queue
  }

  function Notice(s: State): (xs: seq<Item>) {
    match s.notice case None => [] case Some(f) => [Failed(f)]
  }

  /** The positions never leave their sequences. */
  predicate InBounds(snap: seq<Event>, s: State) {
    && s.emitted <= |snap|
    && s.attached + s.forwarded <= s.cursor <= |s.sent|
  }

  /** What was pushed: part of the snapshot, then an unbroken run of live events, then at
      most one notice. */
  predicate Contiguous(snap: seq<Event>, s: State)
    requires InBounds(snap, s)
  {
    Stream(s) == Items(snap[..s.emitted]) + Items(s.sent[s.attached..s.attached + s.forwarded]) + Notice(s)
  }

  /** How far each phase may have come. */
  predicate Staged(snap: seq<Event>, s: State)
    requires InBounds(snap, s)
  {
    && |s.queue| <= CHANNEL
    && (s.notice.Some? ==> s.phase == Finished)
    && (s.phase == Emitting ==> s.delivered == [] && !s.connected && s.forwarded == 0 && s.attached == 0)
    && (s.phase == Overflowed ==>
          s.delivered == [] && |s.queue| == CHANNEL < |snap| && s.forwarded == 0 && !s.connected)
    && (s.phase.Bridging? || s.phase.Holding? || s.phase.Failing? || s.forwarded > 0 || s.notice.Some? ==>
          s.emitted == |snap| <= CHANNEL)
    && (s.phase == Bridging ==> s.cursor == s.attached + s.forwarded)
    && (s.phase.Holding? ==> s.cursor == s.attached + s.forwarded + 1 && s.sent[s.cursor - 1] == s.phase.event)
    && (s.phase == Failing(Lagged) || s.notice == Some(Lagged) ==> |s.sent| - s.cursor > RING)
  }

  ghost predicate Inv(snap: seq<Event>, s: State) {
    InBounds(snap, s) && Contiguous(snap, s) && Staged(snap, s)
  }

  lemma RingStaysRecent(snap: seq<Event>, s: State, step: Step)
    requires IsRecent(s.ring, s.sent) && Enabled(snap, s, step)
    ensures var s' := Next(snap, s, step); IsRecent(s'.ring, s'.sent)
  {
    var s' := Next(snap, s, step);
    if step.Broadcast? {
      PushedIsRecent(s.ring, s.sent, step.event);
    } else {
      assert s'.ring == s.ring && s'.sent == s.sent;
    }
  }

  lemma PushedIsRecent(ring: seq<Event>, sent: seq<Event>, e: Event)
    requires IsRecent(ring, sent)
    ensures IsRecent(Pushed(ring, e), sent + [e])
  {
    if |ring| < RING {
      assert ring == sent;
    } else {
      assert (sent + [e])[|sent| + 1 - RING..] == sent[|sent| - RING..][1..] + [e];
    }
  }

  /** What the ring still holds at the receiver's position is the event sent there; it
      holds nothing there exactly when more than its capacity is unread. */
  predicate ReadsRight(s: State)
    requires s.cursor < |s.sent|
  {
    var unread := |s.sent| - s.cursor;
    && (unread > |s.ring| <==> unread > 1024)
    && (unread <= |s.ring| ==> s.ring[|s.ring| - unread] == s.sent[s.cursor])
  }

  lemma RingReads(s: State)
    requires IsRecent(s.ring, s.sent) && s.cursor < |s.sent|
    ensures ReadsRight(s)
  {
  }

  lemma StepKeepsStages(snap: seq<Event>, s: State, step: Step)
    requires Inv(snap, s) && IsRecent(s.ring, s.sent) && Enabled(snap, s, step)
    ensures InBounds(snap, Next(snap, s, step)) && Staged(snap, Next(snap, s, step))
  {
    if step.Receive? {
      RingReads(s);
      ReceiveKeepsStages(snap, s);
    } else if s.phase == Emitting || s.phase == Overflowed {
      if s.phase == Emitting { EmittingIsQueued(snap, s); }
      SnapshotKeepsStages(snap, s, step);
    } else {
      LiveKeepsStages(snap, s, step);
    }
  }

  lemma ReceiveKeepsStages(snap: seq<Event>, s: State)
    requires InBounds(snap, s) && Staged(snap, s) && Enabled(snap, s, Receive) && ReadsRight(s)
    ensures InBounds(snap, Next(snap, s, Receive)) && Staged(snap, Next(snap, s, Receive))
  {
  }

  lemma SnapshotKeepsStages(snap: seq<Event>, s: State, step: Step)
    requires InBounds(snap, s) && Staged(snap, s) && Enabled(snap, s, step)
    requires (s.phase == Emitting && |s.queue| == s.emitted) || s.phase == Overflowed
    ensures InBounds(snap, Next(snap, s, step)) && Staged(snap, Next(snap, s, step))
  {
  }

  lemma LiveKeepsStages(snap: seq<Event>, s: State, step: Step)
    requires InBounds(snap, s) && Staged(snap, s) && Enabled(snap, s, step)
    requires s.phase != Emitting && s.phase != Overflowed && step != Receive
    ensures InBounds(snap, Next(snap, s, step)) && Staged(snap, Next(snap, s, step))
  {
  }

  /** Nobody drains the channel while the snapshot is pushed. */
  lemma EmittingIsQueued(snap: seq<Event>, s: State)
    requires Inv(snap, s) && s.phase == Emitting
    ensures |s.queue| == s.emitted
  {
    assert |Stream(s)| == |s.queue| && Notice(s) == [];
    assert LiveItems(s) == [];
  }

  function LiveItems(s: State): (xs: seq<Item>)
    requires s.attached + s.forwarded <= |s.sent|
  {
    Items(s.sent[s.attached..s.attached + s.forwarded])
  }

  lemma EmitKeepsContiguity(snap: seq<Event>, s: State)
    requires Inv(snap, s) && Enabled(snap, s, Emit)
    ensures Contiguous(snap, Next(snap, s, Emit))
  {
    var s' := Next(snap, s, Emit);
    assert LiveItems(s) == LiveItems(s') == [] && Notice(s) == Notice(s') == [];
    if |s.queue| < CHANNEL {
      assert snap[..s'.emitted] == snap[..s.emitted] + [snap[s.emitted]];
      ItemsAppend(snap[..s.emitted], snap[s.emitted]);
      assert Stream(s') == Stream(s) + [Secret(snap[s.emitted])];
    }
  }

  lemma PushKeepsContiguity(snap: seq<Event>, s: State)
    requires Inv(snap, s) && Enabled(snap, s, Push)
    ensures Contiguous(snap, Next(snap, s, Push))
  {
    var s', e := Next(snap, s, Push), s.phase.event;
    assert Notice(s) == Notice(s') == [];
    if !s.gone && |s.queue| < CHANNEL {
      OneMoreLive(s, e);
      AppendItem(Items(snap[..s.emitted]), LiveItems(s), s.delivered, s.queue, Secret(e));
    }
  }

  lemma OneMoreLive(s: State, e: Event)
    requires s.attached + s.forwarded < |s.sent| && s.sent[s.attached + s.forwarded] == e
    ensures Items(s.sent[s.attached..s.attached + s.forwarded + 1]) == LiveItems(s) + [Secret(e)]
  {
    var live := s.sent[s.attached..s.attached + s.forwarded];
    assert s.sent[s.attached..s.attached + s.forwarded + 1] == live + [e];
    ItemsAppend(live, e);
  }

  lemma AppendItem(a: seq<Item>, b: seq<Item>, delivered: seq<Item>, queue: seq<Item>, x: Item)
    requires delivered + queue == a + b + []
    ensures delivered + (queue + [x]) == a + (b + [x]) + []
  {
    assert delivered + (queue + [x]) == delivered + queue + [x];
    assert a + (b + [x]) + [] == a + b + [] + [x];
  }

  lemma NoticeKeepsContiguity(snap: seq<Event>, s: State, step: Step)
    requires Inv(snap, s) && Enabled(snap, s, step) && (step == NoticeFailure || step == NoticeOverflow)
    ensures Contiguous(snap, Next(snap, s, step))
  {
    var s' := Next(snap, s, step);
    assert Notice(s) == [] && Stream(s') == Stream(s) + Notice(s');
  }

  lemma SameContents(snap: seq<Event>, s: State, s': State)
    requires InBounds(snap, s) && InBounds(snap, s') && Contiguous(snap, s)
    requires Stream(s') == Stream(s) && s'.emitted == s.emitted
    requires LiveItems(s') == LiveItems(s) && Notice(s') == Notice(s)
    ensures Contiguous(snap, s')
  {
  }

  /** The other steps push nothing. */
  lemma QuietStep(snap: seq<Event>, s: State, step: Step)
    requires Inv(snap, s) && Enabled(snap, s, step) && InBounds(snap, Next(snap, s, step))
    requires !step.Emit? && !step.Push? && !step.NoticeOverflow? && !step.NoticeFailure?
    ensures Stream(Next(snap, s, step)) == Stream(s) && Next(snap, s, step).emitted == s.emitted
    ensures LiveItems(Next(snap, s, step)) == LiveItems(s) && Notice(Next(snap, s, step)) == Notice(s)
  {
    var s' := Next(snap, s, step);
    match step {
      case Attach => assert LiveItems(s) == LiveItems(s') == [];
      case Broadcast(_) =>
        assert s'.sent[s.attached..s.attached + s.forwarded] == s.sent[s.attached..s.attached + s.forwarded];
      case Take => assert s.queue == [s.queue[0]] + s.queue[1..];
      case _ =>
    }
  }

  lemma StepKeepsContiguity(snap: seq<Event>, s: State, step: Step)
    requires Inv(snap, s) && Enabled(snap, s, step) && InBounds(snap, Next(snap, s, step))
    ensures Contiguous(snap, Next(snap, s, step))
  {
    if step.Emit? {
      EmitKeepsContiguity(snap, s);
    } else if step.Push? {
      PushKeepsContiguity(snap, s);
    } else if step.NoticeOverflow? || step.NoticeFailure? {
      NoticeKeepsContiguity(snap, s, step);
    } else {
      QuietStep(snap, s, step);
      SameContents(snap, s, Next(snap, s, step));
    }
  }

  lemma {:induction false} RunsKeepInv(snap: seq<Event>, states: seq<State>, steps: seq<Step>)
    requires IsRun(snap, states, steps)
    ensures Inv(snap, states[|steps|]) && IsRecent(states[|steps|].ring, states[|steps|].sent)
  {
    if steps == [] {
      var s := states[0];
      assert s.sent[0..0] == [] && snap[..0] == [] && Stream(s) == [];
    } else {
      var n := |steps| - 1;
      RunsKeepInv(snap, states[..n + 1], steps[..n]);
      StepKeepsStages(snap, states[n], steps[n]);
      StepKeepsContiguity(snap, states[n], steps[n]);
      RingStaysRecent(snap, states[n], steps[n]);
    }
  }

  /** In every interleaving the client receives a prefix of: the snapshot, then a gap-free
      run of the events broadcast since the subscription attached, then at most one
      failure.  A live event or a failure comes only after the whole snapshot, and only
      if the namespace held no more than the channel does.  Lag is reported only when the
      ring has really overwritten an event the subscriber had not received. */
  lemma DeliveryIsGapFree(snap: seq<Event>, states: seq<State>, steps: seq<Step>)
    requires IsRun(snap, states, steps)
    ensures var s := states[|steps|];
            && InBounds(snap, s)
            && s.delivered <= Items(snap[..s.emitted]) + Items(s.sent[s.attached..s.attached + s.forwarded]) + Notice(s)
            && (s.forwarded > 0 || s.notice.Some? ==> s.emitted == |snap| <= 256)
            && (s.notice == Some(Lagged) ==> |s.sent| - s.cursor > 1024)
  {
    RunsKeepInv(snap, states, steps);
  }

  /** While the subscription is live nothing received from the ring is missing: what the
      client has or has waiting is the snapshot and every event up to the cursor. */
  lemma LiveSubscriptionMissesNothing(snap: seq<Event>, states: seq<State>, steps: seq<Step>)
    requires IsRun(snap, states, steps) && states[|steps|].phase == Bridging
    ensures var s := states[|steps|];
            && s.attached <= s.cursor <= |s.sent|
            && Stream(s) == Items(snap) + Items(s.sent[s.attached..s.cursor])
  {
    RunsKeepInv(snap, states, steps);
    var s := states[|steps|];
    assert snap[..|snap|] == snap;
    assert Notice(s) == [];
  }

  /** The live run starts with the first event sent after the receiver was attached. */
  lemma {:induction false} LiveRunStartsAtAttach(snap: seq<Event>, states: seq<State>, steps: seq<Step>, i: nat, t: nat)
    requires IsRun(snap, states, steps) && i < t <= |steps| && steps[i] == Attach
    ensures states[t].attached == |states[i].sent|
    ensures states[t].phase != Emitting
    decreases t - i
  {
    assert states[t] == Next(snap, states[t - 1], steps[t - 1]);
    if i + 1 < t { LiveRunStartsAtAttach(snap, states, steps, i, t - 1); }
  }

  /** A namespace with more secrets than the channel holds is cut off silently: the client
      sees at most the first ones and never a failure notice, because the channel is
      still full when the notice is tried. */
  lemma OversizedNamespaceIsCutOffSilently(snap: seq<Event>, states: seq<State>, steps: seq<Step>)
    requires IsRun(snap, states, steps) && |snap| > 256
    ensures states[|steps|].delivered <= Items(snap[..256])
    ensures forall f :: Failed(f) !in states[|steps|].delivered
  {
    RunsKeepInv(snap, states, steps);
    OversizedEmits(snap, states, steps);
    var s := states[|steps|];
    assert s.sent[s.attached..s.attached + 0] == [];
    assert Stream(s) == Items(snap[..s.emitted]);
    assert s.delivered <= Items(snap[..s.emitted]) <= Items(snap[..CHANNEL]);
  }

  lemma {:induction false} OversizedEmits(snap: seq<Event>, states: seq<State>, steps: seq<Step>)
    requires IsRun(snap, states, steps) && |snap| > CHANNEL
    ensures var s := states[|steps|]; s.emitted <= CHANNEL && s.forwarded == 0 && s.notice == None
  {
    RunsKeepInv(snap, states, steps);
    if steps != [] {
      var n := |steps| - 1;
      OversizedEmits(snap, states[..n + 1], steps[..n]);
      RunsKeepInv(snap, states[..n + 1], steps[..n]);
      if states[n].phase == Emitting { EmittingIsQueued(snap, states[n]); }
    }
  }

  /** The client took something after step `i` and before step `t`. */
  ghost predicate Drained(steps: seq<Step>, i: nat, t: nat)
    requires t <= |steps|
  {
    exists u :: i < u < t && steps[u] == Take
  }

  /** While a failure waits to be announced, only the client makes room. */
  lemma {:induction false} RoomWhileFailing(snap: seq<Event>, states: seq<State>, steps: seq<Step>, i: nat, t: nat)
    requires IsRun(snap, states, steps) && i < t <= |steps|
    requires states[i + 1].phase.Failing? && |states[i + 1].queue| <= CHANNEL
    ensures var s, from := states[t], states[i + 1];
            || s.phase == Finished
            || (s.phase == from.phase && |s.queue| <= CHANNEL &&
                (|s.queue| < CHANNEL <==> |from.queue| < CHANNEL || Drained(steps, i, t)))
    decreases t - i
  {
    if i + 1 < t {
      RoomWhileFailing(snap, states, steps, i, t - 1);
      assert states[t] == Next(snap, states[t - 1], steps[t - 1]);
      assert Drained(steps, i, t) <==> Drained(steps, i, t - 1) || steps[t - 1] == Take;
    }
  }

  lemma InvAlong(snap: seq<Event>, states: seq<State>, steps: seq<Step>, i: nat)
    requires IsRun(snap, states, steps) && i <= |steps|
    ensures Inv(snap, states[i])
  {
    assert IsRun(snap, states[..i + 1], steps[..i]);
    RunsKeepInv(snap, states[..i + 1], steps[..i]);
  }

  /** A failure reaches the client's channel exactly if the client is still there and the
      channel had room when it arose, or the client took something before the notice. */
  lemma FailureIsToldIff(snap: seq<Event>, states: seq<State>, steps: seq<Step>, i: nat, j: nat)
    requires IsRun(snap, states, steps) && i < j < |steps|
    requires states[i + 1].phase.Failing? && steps[j] == NoticeFailure
    ensures states[j + 1].notice == Some(states[i + 1].phase.failure) <==>
            !states[j].gone && (|states[i + 1].queue| < 256 || Drained(steps, i, j))
  {
    InvAlong(snap, states, steps, i + 1);
    RoomWhileFailing(snap, states, steps, i, j);
    InvAlong(snap, states, steps, j);
  }

  /** A subscriber that is too slow is told so exactly if it is still there and took
      something between the push that failed and the notice. */
  lemma SlowSubscriberIsToldIff(snap: seq<Event>, states: seq<State>, steps: seq<Step>, i: nat, j: nat)
    requires IsRun(snap, states, steps) && i < j < |steps|
    requires steps[i] == Push && states[i + 1].phase == Failing(TooSlow) && steps[j] == NoticeFailure
    ensures states[j + 1].notice == Some(TooSlow) <==> !states[j].gone && Drained(steps, i, j)
  {
    assert states[i + 1] == Next(snap, states[i], Push);
    FailureIsToldIff(snap, states, steps, i, j);
  }

  ghost predicate Reaches(snap: seq<Event>, s: State) {
    exists states, steps :: IsRun(snap, states, steps) && states[|steps|] == s
  }

  lemma ReachesNext(snap: seq<Event>, s: State, step: Step)
    requires Reaches(snap, s) && Enabled(snap, s, step)
    ensures Reaches(snap, Next(snap, s, step))
  {
    var states, steps :| IsRun(snap, states, steps) && states[|steps|] == s;
    var states', steps' := states + [Next(snap, s, step)], steps + [step];
    forall i | 0 <= i < |steps'|
      ensures Enabled(snap, states'[i], steps'[i]) && states'[i + 1] == Next(snap, states'[i], steps'[i])
    {
      if i < |steps| { assert states'[i] == states[i] && states'[i + 1] == states[i + 1]; }
    }
    assert IsRun(snap, states', steps') && states'[|steps'|] == Next(snap, s, step);
  }

  /** `n` events of the snapshot pushed, nothing broadcast yet. */
  function AfterEmits(snap: seq<Event>, n: nat): (s: State)
    requires n <= |snap|
  {
    State(Emitting, n, 0, 0, 0, None, [], [], Items(snap[..n]), false, false, [])
  }

  lemma {:induction false} EmitsReach(snap: seq<Event>, n: nat)
    requires n <= |snap| && n <= CHANNEL
    ensures Reaches(snap, AfterEmits(snap, n))
  {
    if n == 0 {
      assert snap[..0] == [];
      assert IsRun(snap, [AfterEmits(snap, 0)], []);
    } else {
      EmitsReach(snap, n - 1);
      assert snap[..n] == snap[..n - 1] + [snap[n - 1]];
      ItemsAppend(snap[..n - 1], snap[n - 1]);
      ReachesNext(snap, AfterEmits(snap, n - 1), Emit);
    }
  }

  /** A snapshot that just fits, one live event, and a client that has taken nothing yet:
      the client is still there, misses the event, and is never told. */
  lemma SilentDisconnectCounterexample(snap: seq<Event>, e: Event)
    requires |snap| == CHANNEL
    ensures Reaches(snap, State(Finished, CHANNEL, 0, 1, 0, None, [e], [e], Items(snap), true, false, []))
  {
    EmitsReach(snap, CHANNEL);
    assert snap[..CHANNEL] == snap;
    var s0 := AfterEmits(snap, CHANNEL);
    ReachesNext(snap, s0, Attach);
    var s1 := Next(snap, s0, Attach);
    ReachesNext(snap, s1, Broadcast(e));
    var s2 := Next(snap, s1, Broadcast(e));
    assert s2.ring == [e] && s2.sent == [e];
    ReachesNext(snap, s2, Receive);
    var s3 := Next(snap, s2, Receive);
    ReachesNext(snap, s3, Push);
    ReachesNext(snap, Next(snap, s3, Push), NoticeFailure);
  }
}
