/**
 * Fan-out of one terminal's PTY output: the reader task appends each chunk to the disk log and offers it to the
 * bounded queue of every attached listener; a listener first replays the log and then drains its queue.
 *
 * `Hub` is the history of one session as a value, with one step per stretch of code between two suspension points
 * of the event loop; `Runtime` is the object the service keeps.
 */
module TerminalFanout {
  import opened Prelude
  import opened TerminalLog

  const QUEUE_MAX: nat := 256
  const BUFFER_MAX_CHUNKS: nat := 512
  const REPLAY_CHUNK: nat := 65536

  /** A queued chunk, or the end-of-session sentinel (`None`). */
  type Item = Option<Bytes>

  /** `put_nowait`, dropping the oldest pending item to make room in a full queue. */
  function Offer<T>(queue: seq<T>, item: T): seq<T> {
    (if |queue| < QUEUE_MAX then queue else queue[1..]) + [item]
  }

  function Keep<T>(s: seq<T>, max: nat): seq<T> {
    if |s| <= max then s else s[|s| - max..]
  }

  /** What became of a chunk that left a listener's queue. */
  datatype Fate = Delivered | Evicted

  /**
   * One listener. `replay` is the log snapshot taken when it attached, of which `played` pieces were yielded;
   * `got` are the live chunks yielded after them. Its queue holds `pending` and, once `closed`, the sentinel behind
   * them. `since` counts the chunks logged before it attached, and `fates` records, oldest first, what became of
   * each later chunk that is no longer pending.
   */
  datatype Listener = Listener(
    attached: bool,
    replay: seq<Bytes>, played: nat,
    pending: seq<Bytes>, closed: bool, got: seq<Bytes>,
    since: nat, fates: seq<Fate>)

  /** One session: every chunk its PTY produced, and everyone who ever attached. */
  datatype Hub<!L(==)> = Hub(policy: Policy, fed: seq<Bytes>, listeners: map<L, Listener>)

  datatype Step<L> =
    | Pump(chunk: Bytes)
    | Attach(who: L, replay: seq<Bytes>)
    | Next(who: L)
    | Detach(who: L)
    | Cleanup

  /** A chunk reaches one listener; a full queue evicts its oldest chunk. */
  function Receive(l: Listener, chunk: Bytes): Listener {
    if !l.attached then l
    else if |l.pending| < QUEUE_MAX then l.(pending := Offer(l.pending, chunk))
    else l.(pending := Offer(l.pending, chunk), fates := l.fates + [Evicted])
  }

  /** The generator yields its next item: history first, then the queue; the sentinel ends it. */
  function Yield(l: Listener): Listener {
    if l.played < |l.replay| then l.(played := l.played + 1)
    else if l.pending != [] then
      l.(pending := l.pending[1..], got := l.got + [l.pending[0]], fates := l.fates + [Delivered])
    else if l.closed then l.(closed := false)
    else l
  }

  /** `_cleanup_after_exit`: the sentinel goes to every queue that has room, and every listener is dropped. */
  function Dismiss(l: Listener): Listener {
    if l.attached then l.(closed := |l.pending| < QUEUE_MAX, attached := false) else l
  }

  ghost predicate Enabled<L>(h: Hub<L>, step: Step<L>) {
    match step
    case Attach(who, replay) => who !in h.listeners && Flatten(replay) == LogAfter(h.policy, h.fed)
    case Next(who) => who in h.listeners
    case Detach(who) => who in h.listeners
    case _ => true
  }

  /** The session after one step. */
  ghost function After<L>(h: Hub<L>, step: Step<L>): Hub<L>
    requires Enabled(h, step)
  {
    match step
    case Pump(chunk) =>
      h.(fed := h.fed + [chunk], listeners := map w | w in h.listeners :: Receive(h.listeners[w], chunk))
    case Attach(who, replay) =>
      h.(listeners := h.listeners[who := Listener(true, replay, 0, [], false, [], |h.fed|, [])])
    case Next(who) =>
      h.(listeners := h.listeners[who := Yield(h.listeners[who])])
    case Detach(who) =>
      h.(listeners := h.listeners[who := h.listeners[who].(attached := false)])
    case Cleanup =>
      h.(listeners := map w | w in h.listeners :: Dismiss(h.listeners[w]))
  }

  /** `end` is reached from `start` by some run of steps, each enabled when it is taken. */
  ghost predicate Reaches<L>(start: Hub<L>, steps: seq<Step<L>>, end: Hub<L>)
    decreases |steps|
  {
    if steps == [] then start == end
    else Enabled(start, steps[0]) && Reaches(After(start, steps[0]), steps[1..], end)
  }

  // ---------------------------------------------------------------- what a listener was fed

  /** The chunks among `chunks` that were delivered, in order. */
  function Survivors(chunks: seq<Bytes>, fates: seq<Fate>): seq<Bytes>
    requires |chunks| == |fates|
  {
    if chunks == [] then []
    else
      var n := |chunks| - 1;
      Survivors(chunks[..n], fates[..n]) + (if fates[n] == Delivered then [chunks[n]] else [])
  }

  /** How many of the session's chunks the listener has been offered, counting those logged before it attached. */
  function Until(l: Listener): nat {
    l.since + |l.fates| + |l.pending|
  }

  /** Every chunk offered to the listener is accounted for once: delivered, evicted or still pending, in log order. */
  predicate Accounted(l: Listener, fed: seq<Bytes>) {
    var left := l.since + |l.fates|;
    && Until(l) <= |fed|
    && (l.attached ==> Until(l) == |fed|)
    && l.pending == fed[left..Until(l)]
    && l.got == Survivors(fed[l.since..left], l.fates)
    && |l.pending| <= QUEUE_MAX
    && l.played <= |l.replay|
    && (l.played < |l.replay| ==> l.got == [])
  }

  ghost predicate Snapshot(l: Listener, p: Policy, fed: seq<Bytes>) {
    l.since <= |fed| && Flatten(l.replay) == LogAfter(p, fed[..l.since])
  }

  ghost predicate Inv<L>(h: Hub<L>) {
    forall w :: w in h.listeners ==> Accounted(h.listeners[w], h.fed) && Snapshot(h.listeners[w], h.policy, h.fed)
  }

  lemma SurvivorsSnoc(chunks: seq<Bytes>, fates: seq<Fate>, chunk: Bytes, fate: Fate)
    requires |chunks| == |fates|
    ensures Survivors(chunks + [chunk], fates + [fate])
         == Survivors(chunks, fates) + (if fate == Delivered then [chunk] else [])
  {
    assert (chunks + [chunk])[..|chunks|] == chunks;
    assert (fates + [fate])[..|fates|] == fates;
  }

  /** The oldest pending chunk leaves the queue and meets its fate. */
  lemma OldestLeaves(l: Listener, fed: seq<Bytes>, fate: Fate)
    requires Accounted(l, fed) && l.pending != []
    ensures var left := l.since + |l.fates|;
      && l.pending[0] == fed[left]
      && l.pending[1..] == fed[left + 1..Until(l)]
      && Survivors(fed[l.since..left + 1], l.fates + [fate])
         == l.got + (if fate == Delivered then [l.pending[0]] else [])
  {
    var left := l.since + |l.fates|;
    assert fed[l.since..left + 1] == fed[l.since..left] + [fed[left]];
    SurvivorsSnoc(fed[l.since..left], l.fates, fed[left], fate);
  }

  lemma SliceKept(fed: seq<Bytes>, chunk: Bytes, low: nat, high: nat)
    requires low <= high <= |fed|
    ensures (fed + [chunk])[low..high] == fed[low..high]
  {
  }

  lemma LongerLog(l: Listener, fed: seq<Bytes>, chunk: Bytes)
    requires Accounted(l, fed)
    ensures Accounted(l.(attached := false), fed + [chunk])
  {
    var left := l.since + |l.fates|;
    SliceKept(fed, chunk, l.since, left);
    SliceKept(fed, chunk, left, Until(l));
  }

  lemma ReceiveAccounted(l: Listener, fed: seq<Bytes>, chunk: Bytes)
    requires Accounted(l, fed)
    ensures Accounted(Receive(l, chunk), fed + [chunk])
  {
    LongerLog(l, fed, chunk);
    if l.attached {
      if |l.pending| < QUEUE_MAX {
        RoomForChunk(l, fed, chunk);
      } else {
        OldestEvicted(l, fed, chunk);
      }
    }
  }

  lemma RoomForChunk(l: Listener, fed: seq<Bytes>, chunk: Bytes)
    requires Accounted(l, fed) && l.attached && |l.pending| < QUEUE_MAX
    requires Accounted(l.(attached := false), fed + [chunk])
    ensures Accounted(Receive(l, chunk), fed + [chunk])
  {
    assert (fed + [chunk])[l.since + |l.fates|..|fed| + 1] == l.pending + [chunk];
  }

  lemma OldestEvicted(l: Listener, fed: seq<Bytes>, chunk: Bytes)
    requires Accounted(l, fed) && l.attached && |l.pending| == QUEUE_MAX
    requires Accounted(l.(attached := false), fed + [chunk])
    ensures Accounted(Receive(l, chunk), fed + [chunk])
  {
    var left := l.since + |l.fates|;
    OldestLeaves(l.(attached := false), fed + [chunk], Evicted);
    assert (fed + [chunk])[left + 1..|fed| + 1] == l.pending[1..] + [chunk];
  }

  lemma YieldAccounted(l: Listener, fed: seq<Bytes>)
    requires Accounted(l, fed)
    ensures Accounted(Yield(l), fed)
  {
    if l.played == |l.replay| && l.pending != [] {
      OldestLeaves(l, fed, Delivered);
    }
  }

  lemma StepKeepsListener<L>(h: Hub<L>, step: Step<L>, w: L)
    requires w in h.listeners && Accounted(h.listeners[w], h.fed) && Enabled(h, step)
    ensures w in After(h, step).listeners && Accounted(After(h, step).listeners[w], After(h, step).fed)
  {
    var l := h.listeners[w];
    match step {
      case Pump(chunk) => ReceiveAccounted(l, h.fed, chunk);
      case Next(who) => YieldAccounted(l, h.fed);
      case _ =>
    }
  }

  lemma StepKeepsSnapshot<L>(h: Hub<L>, step: Step<L>, w: L)
    requires w in h.listeners && Snapshot(h.listeners[w], h.policy, h.fed) && Enabled(h, step)
    ensures w in After(h, step).listeners && Snapshot(After(h, step).listeners[w], h.policy, After(h, step).fed)
  {
    assert After(h, step).fed[..h.listeners[w].since] == h.fed[..h.listeners[w].since];
  }

  lemma StepKeepsInv<L>(h: Hub<L>, step: Step<L>)
    requires Inv(h) && Enabled(h, step)
    ensures Inv(After(h, step))
  {
    var next := After(h, step);
    forall w | w in next.listeners
      ensures Accounted(next.listeners[w], next.fed) && Snapshot(next.listeners[w], next.policy, next.fed)
    {
      if w in h.listeners {
        StepKeepsListener(h, step, w);
        StepKeepsSnapshot(h, step, w);
      } else {
        assert h.fed[..|h.fed|] == h.fed;
      }
    }
  }

  /** Over every interleaving of pump, attach, consume, detach and cleanup, every listener stays accounted for. */
  lemma {:induction false} RunKeepsInv<L>(start: Hub<L>, steps: seq<Step<L>>, end: Hub<L>)
    requires Inv(start) && Reaches(start, steps, end)
    ensures Inv(end) && end.policy == start.policy
    decreases |steps|
  {
    if steps != [] {
      StepKeepsInv(start, steps[0]);
      RunKeepsInv(After(start, steps[0]), steps[1..], end);
    }
  }

  // ---------------------------------------------------------------- what a viewer sees

  lemma {:induction false} NothingEvicted(chunks: seq<Bytes>, fates: seq<Fate>)
    requires |chunks| == |fates|
    ensures |Survivors(chunks, fates)| <= |chunks|
    ensures Survivors(chunks, fates) == chunks <==> Evicted !in fates
  {
    if chunks != [] {
      var n := |chunks| - 1;
      NothingEvicted(chunks[..n], fates[..n]);
      assert chunks == chunks[..n] + [chunks[n]] && fates == fates[..n] + [fates[n]];
      if Survivors(chunks, fates) == chunks {
        assert |Survivors(chunks[..n], fates[..n])| == n;
        assert Survivors(chunks, fates)[..n] == Survivors(chunks[..n], fates[..n]);
      }
    }
  }

  /** What was delivered and what is pending are exactly the chunks offered if and only if nothing was evicted. */
  lemma GaplessIffNothingEvicted(l: Listener, fed: seq<Bytes>)
    requires Accounted(l, fed)
    ensures l.got + l.pending == fed[l.since..Until(l)] <==> Evicted !in l.fates
  {
    var left := l.since + |l.fates|;
    var offered := fed[l.since..Until(l)];
    NothingEvicted(fed[l.since..left], l.fates);
    assert offered == fed[l.since..left] + l.pending;
    if l.got + l.pending == offered {
      assert |l.got| == |l.fates|;
      assert l.got == offered[..|l.fates|] == fed[l.since..left];
    }
  }

  /**
   * After every run a listener was given, or has pending, the log as it stood when it attached followed by the
   * chunks logged since until it was detached; gap-free exactly when its full queue never had to evict.
   */
  lemma FedFromSnapshot<L>(start: Hub<L>, steps: seq<Step<L>>, h: Hub<L>, w: L)
    requires start.listeners == map[] && Reaches(start, steps, h) && w in h.listeners
    ensures var l := h.listeners[w];
      && Accounted(l, h.fed)
      && Snapshot(l, h.policy, h.fed)
      && (l.got + l.pending == h.fed[l.since..Until(l)] <==> Evicted !in l.fates)
  {
    RunKeepsInv(start, steps, h);
    GaplessIffNothingEvicted(h.listeners[w], h.fed);
  }

  /** The tail of a marked log, extended by later chunks, is a marked tail of the longer stream. */
  lemma TailExtends(p: Policy, file: Bytes, stream: Bytes, more: Bytes)
    requires MarkedTail(p, file, stream)
    ensures MarkedTail(p, file + more, stream + more)
  {
    var m := |p.marker|;
    assert (stream + more)[|stream| - (|file| - m)..] == stream[|stream| - (|file| - m)..] + more;
  }

  /**
   * So an attached viewer that lost nothing sees, once it has caught up, the PTY stream from its very first byte; or,
   * when the log had been cut before it attached, the marker and then an unbroken tail of the stream.
   */
  lemma ViewerSeesStream(l: Listener, p: Policy, fed: seq<Bytes>)
    requires Accounted(l, fed) && Snapshot(l, p, fed) && l.attached && Evicted !in l.fates
    ensures var seen := Flatten(l.replay + l.got + l.pending);
      if |Flatten(fed[..l.since])| <= p.limit then seen == Flatten(fed) else MarkedTail(p, seen, Flatten(fed))
  {
    GaplessIffNothingEvicted(l, fed);
    var before, later := fed[..l.since], fed[l.since..];
    ReplayThenLive(p, l.replay, before, later);
    Regroup(l.replay, l.got, l.pending);
    assert fed[l.since..Until(l)] == later && before + later == fed;
  }

  lemma ReplayThenLive(p: Policy, replay: seq<Bytes>, before: seq<Bytes>, later: seq<Bytes>)
    requires Flatten(replay) == LogAfter(p, before)
    ensures var seen, stream := Flatten(replay + later), Flatten(before + later);
      if |Flatten(before)| <= p.limit then seen == stream else MarkedTail(p, seen, stream)
  {
    FlattenAppend(replay, later);
    FlattenAppend(before, later);
    LogShape(p, before);
    if |Flatten(before)| > p.limit {
      TailExtends(p, Flatten(replay), Flatten(before), Flatten(later));
    }
  }

  /** A chunk is lost only to an arriving one, only while 256 chunks are pending, and only the oldest of them. */
  lemma EvictionOnlyWhenFull<L>(h: Hub<L>, step: Step<L>, w: L)
    requires Inv(h) && Enabled(h, step) && w in h.listeners
    ensures w in After(h, step).listeners
    ensures var l, l' := h.listeners[w], After(h, step).listeners[w];
      l'.fates == l.fates + [Evicted] ==>
        && step.Pump? && l.attached && |l.pending| == QUEUE_MAX && l.got == l'.got
        && l.pending[0] == h.fed[l.since + |l.fates|]
        && l'.pending == l.pending[1..] + [step.chunk]
  {
    var l, l' := h.listeners[w], After(h, step).listeners[w];
    if l'.fates == l.fates + [Evicted] {
      assert l'.fates[|l.fates|] == Evicted;
      assert Accounted(l, h.fed);
    }
  }

  // ---------------------------------------------------------------- the object

  class ListenerQueue {
    var items: seq<Item>

    constructor ()
      ensures items == []
    {
      items := [];
    }

    method PutNowait(item: Item) returns (ok: bool)
      modifies this
      ensures ok <==> |old(items)| < QUEUE_MAX
      ensures items == if ok then old(items) + [item] else old(items)
    {
      ok := |items| < QUEUE_MAX;
      if ok {
        items := items + [item];
      }
    }

    method GetNowait() returns (item: Option<Item>)
      modifies this
      ensures old(items) == [] ==> item == None && items == []
      ensures old(items) != [] ==> item == Some(old(items)[0]) && items == old(items)[1..]
    {
      if items == [] {
        item := None;
      } else {
        item := Some(items[0]);
        items := items[1..];
      }
    }
  }

  /** What a listener's queue holds: the pending chunks and, once it is closed, the sentinel. */
  function Items(l: Listener): seq<Item> {
    seq(|l.pending|, i requires 0 <= i < |l.pending| => Some(l.pending[i])) + (if l.closed then [None] else [])
  }

  /** The queue is registered while its listener is attached, and holds what is pending for it. */
  predicate Mirrors(l: Listener, items: seq<Item>, registered: bool) {
    && (registered <==> l.attached) && (l.attached ==> !l.closed)
    && |l.pending| <= QUEUE_MAX && items == Items(l)
  }

  /** A queue with the sentinel, if it has room. */
  function Ended(items: seq<Item>): seq<Item> {
    if |items| < QUEUE_MAX then items + [None] else items
  }

  lemma ReceiveMirrors(l: Listener, items: seq<Item>, registered: bool, chunk: Bytes)
    requires Mirrors(l, items, registered)
    ensures Mirrors(Receive(l, chunk), if registered then Offer(items, Some(chunk)) else items, registered)
    ensures registered ==> |items| <= QUEUE_MAX
  {
  }

  /** Where the log is replayed still, the queue stays as it is; behind it the queue gives its first item. */
  lemma YieldMirrors(l: Listener, items: seq<Item>, registered: bool)
    requires Mirrors(l, items, registered) && (l.played < |l.replay| || items != [])
    ensures Mirrors(Yield(l), if l.played < |l.replay| then items else items[1..], registered)
    ensures Yield(l).replay == l.replay && Yield(l).played == if l.played < |l.replay| then l.played + 1 else l.played
  {
  }

  lemma DismissMirrors(l: Listener, items: seq<Item>, registered: bool)
    requires Mirrors(l, items, registered)
    ensures Mirrors(Dismiss(l), if registered then Ended(items) else items, false)
  {
  }

  /** One more step at the end of a run. */
  lemma {:induction false} ReachesSnoc<L>(start: Hub<L>, steps: seq<Step<L>>, h: Hub<L>, step: Step<L>)
    requires Reaches(start, steps, h) && Enabled(h, step)
    ensures Reaches(start, steps + [step], After(h, step))
    decreases |steps|
  {
    if steps == [] {
      assert ([] + [step])[1..] == [];
    } else {
      assert (steps + [step])[1..] == steps[1..] + [step];
      ReachesSnoc(After(start, steps[0]), steps[1..], h, step);
    }
  }

  /** The generator `attach`: the log it replays, how far it is with that, and its queue. */
  class Viewer {
    const history: seq<Bytes>
    const queue: ListenerQueue
    var played: nat

    constructor (history: seq<Bytes>, queue: ListenerQueue)
      ensures this.history == history && this.queue == queue && played == 0
    {
      this.history, this.queue, played := history, queue, 0;
    }
  }

  /** `_RuntimeSession`: the log, the ring buffer and the set of listener queues. */
  class Runtime {
    const log: LogFile
    var listeners: set<ListenerQueue>
    var outputBuffer: seq<Bytes>
    // the history of the session as a value, and the run of steps that led there
    ghost const start: Hub<ListenerQueue>
    ghost var steps: seq<Step<ListenerQueue>>
    ghost var hub: Hub<ListenerQueue>

    constructor (log: LogFile)
      requires log.Valid()
      ensures Valid() && this.log == log && listeners == {} && outputBuffer == [] && steps == []
      ensures hub == start == Hub(log.policy, log.fed, map[])
    {
      this.log := log;
      listeners := {};
      outputBuffer := [];
      start := Hub(log.policy, log.fed, map[]);
      steps := [];
      hub := Hub(log.policy, log.fed, map[]);
    }

    /** The runtime is what a run of steps made of a session without listeners. */
    ghost predicate Valid()
      reads this, log, hub.listeners.Keys
    {
      && log.Valid() && hub.policy == log.policy && hub.fed == log.fed
      && start.listeners == map[] && Reaches(start, steps, hub)
      && listeners <= hub.listeners.Keys
      && forall q :: q in hub.listeners ==> Mirrors(hub.listeners[q], q.items, q in listeners)
    }

    /** The viewer is where its listener is. */
    ghost predicate Follows(v: Viewer)
      reads this, v
    {
      && v.queue in hub.listeners
      && hub.listeners[v.queue].replay == v.history && hub.listeners[v.queue].played == v.played
    }

    /** What was done is one more step of the run. */
    ghost method Record(step: Step<ListenerQueue>)
      requires Enabled(hub, step) && Reaches(start, steps, hub)
      modifies this`hub, this`steps
      ensures hub == After(old(hub), step) && steps == old(steps) + [step] && Reaches(start, steps, hub)
    {
      ReachesSnoc(start, steps, hub, step);
      hub, steps := After(hub, step), steps + [step];
    }

    /** One turn of `_pump_output`: append to the log, then offer the chunk to every listener. */
    method PumpChunk(chunk: Bytes)
      requires Valid()
      modifies this`outputBuffer, this`hub, this`steps, log, listeners
      ensures Valid() && hub == After(old(hub), Pump(chunk)) && steps == old(steps) + [Pump(chunk)]
      ensures log.fed == old(log.fed) + [chunk]
      ensures outputBuffer == Keep(old(outputBuffer) + [chunk], BUFFER_MAX_CHUNKS)
      ensures |old(outputBuffer)| < 512 ==> outputBuffer == old(outputBuffer) + [chunk]
      ensures |old(outputBuffer)| == 512 ==> outputBuffer == old(outputBuffer)[1..] + [chunk]
      ensures forall q :: q in listeners ==> q.items == Offer(old(q.items), Some(chunk))
      ensures forall q :: q in listeners ==>
        q.items == (if |old(q.items)| < 256 then old(q.items) else old(q.items)[1..]) + [Some(chunk)]
    {
      forall q | q in hub.listeners
        ensures q in listeners ==> |q.items| <= QUEUE_MAX
        ensures Mirrors(Receive(hub.listeners[q], chunk),
                        if q in listeners then Offer(q.items, Some(chunk)) else q.items, q in listeners)
      {
        ReceiveMirrors(hub.listeners[q], q.items, q in listeners, chunk);
      }
      log.Append(chunk);
      outputBuffer := Keep(outputBuffer + [chunk], BUFFER_MAX_CHUNKS);
      Broadcast(chunk);
      Record(Pump(chunk));
    }

    /** The loop over the listeners inside `_pump_output`. */
    method Broadcast(chunk: Bytes)
      requires forall q :: q in listeners ==> |q.items| <= QUEUE_MAX
      modifies listeners
      ensures forall q :: q in listeners ==> q.items == Offer(old(q.items), Some(chunk))
    {
      var rest := listeners;
      while rest != {}
        invariant rest <= listeners
        invariant forall q :: q in listeners ==>
          q.items == if q in rest then old(q.items) else Offer(old(q.items), Some(chunk))
        decreases rest
      {
        var q :| q in rest;
        var ok := q.PutNowait(Some(chunk));
        if !ok {
          var _ := q.GetNowait();
          ok := q.PutNowait(Some(chunk));
        }
        rest := rest - {q};
      }
    }

    /** The atomic part of `attach`: snapshot the log and register an empty queue, with no suspension between. */
    method Register() returns (v: Viewer)
      requires Valid()
      modifies this`listeners, this`hub, this`steps
      ensures Valid() && fresh(v) && fresh(v.queue) && v.queue.items == [] && v.played == 0 && Follows(v)
      ensures listeners == old(listeners) + {v.queue} && Flatten(v.history) == log.Contents()
      ensures v.queue !in old(hub.listeners) && Enabled(old(hub), Attach(v.queue, v.history))
      ensures hub == After(old(hub), Attach(v.queue, v.history))
      ensures steps == old(steps) + [Attach(v.queue, v.history)]
    {
      var q := new ListenerQueue();
      var replay := log.Replay(REPLAY_CHUNK);
      v := new Viewer(replay, q);
      assert q !in hub.listeners;
      listeners := listeners + {q};
      Record(Attach(q, replay));
    }

    /** The generator goes on: the next piece of the log, or what is next in its queue; the sentinel ends it. */
    method Advance(v: Viewer) returns (item: Item)
      requires Valid() && Follows(v)
      requires v.played < |v.history| || v.queue.items != []
      modifies v`played, v.queue, this`hub, this`steps
      ensures Valid() && Follows(v)
      ensures hub == After(old(hub), Next(v.queue)) && steps == old(steps) + [Next(v.queue)]
      ensures item == if old(v.played) < |v.history| then Some(v.history[old(v.played)]) else old(v.queue.items)[0]
    {
      var q := v.queue;
      YieldMirrors(hub.listeners[q], q.items, q in listeners);
      if v.played < |v.history| {
        item := Some(v.history[v.played]);
        v.played := v.played + 1;
      } else {
        var next := q.GetNowait();
        item := next.value;
      }
      Record(Next(q));
    }

    /** The `finally` of `attach`. */
    method Unregister(q: ListenerQueue)
      requires Valid() && q in hub.listeners
      modifies this`listeners, this`hub, this`steps
      ensures Valid() && listeners == old(listeners) - {q}
      ensures hub == After(old(hub), Detach(q)) && steps == old(steps) + [Detach(q)]
    {
      listeners := listeners - {q};
      Record(Detach(q));
    }

    /** The first half of `_cleanup_after_exit`. */
    method SendSentinels()
      requires Valid()
      modifies this`listeners, this`hub, this`steps, listeners
      ensures Valid() && listeners == {}
      ensures hub == After(old(hub), Cleanup) && steps == old(steps) + [Cleanup]
      ensures forall q :: q in old(listeners) ==> q.items == Ended(old(q.items))
      ensures forall q :: q in old(listeners) ==>
        q.items == if |old(q.items)| < 256 then old(q.items) + [None] else old(q.items)
    {
      forall q | q in hub.listeners
        ensures Mirrors(Dismiss(hub.listeners[q]), if q in listeners then Ended(q.items) else q.items, false)
      {
        DismissMirrors(hub.listeners[q], q.items, q in listeners);
      }
      CloseAll();
      listeners := {};
      Record(Cleanup);
    }

    /** The loop that offers the sentinel to every queue. */
    method CloseAll()
      modifies listeners
      ensures forall q :: q in listeners ==> q.items == Ended(old(q.items))
    {
      var rest := listeners;
      while rest != {}
        invariant rest <= listeners
        invariant forall q :: q in listeners ==>
          q.items == if q in rest then old(q.items) else Ended(old(q.items))
        decreases rest
      {
        var q :| q in rest;
        var _ := q.PutNowait(None);
        rest := rest - {q};
      }
    }

    /**
     * Of the object itself: an attached viewer that lost nothing sees, with what its queue still holds, the stream
     * from its first byte, or the marker and an unbroken tail of it.
     */
    lemma AttachedSeesStream(v: Viewer)
      requires Valid() && Follows(v) && v.queue in listeners && Evicted !in hub.listeners[v.queue].fates
      ensures hub.listeners[v.queue].since <= |log.fed|
      ensures var l := hub.listeners[v.queue];
        var seen := Flatten(v.history + l.got + l.pending);
        if |Flatten(log.fed[..l.since])| <= log.policy.limit then seen == Flatten(log.fed)
        else MarkedTail(log.policy, seen, Flatten(log.fed))
    {
      FedFromSnapshot(start, steps, hub, v.queue);
      assert Mirrors(hub.listeners[v.queue], v.queue.items, true);
      ViewerSeesStream(hub.listeners[v.queue], log.policy, log.fed);
    }
  }
}
