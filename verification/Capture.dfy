/** The capture lifecycle (internal/capture/capture.go) as a machine of interleaved steps:
    any number of workers, one Stop, one consumer, a mutex around the connection map, a
    channel of bounded capacity and a wait group. Dials, reads and sleeps return, with
    any outcome. */
module Capture {
  import opened Wrappers

  type Conn = nat   // connections in the order they were dialled
  type Bytes = string
  type Time = int

  const CAPACITY := 1000

  datatype Chunk = Chunk(worker: nat, data: Bytes)

  /** Where connectToSource and handleConnection are. */
  datatype Place =
    | Top | Dialing | Backoff
    | Dialled(conn: Conn) | Checking(conn: Conn) | Reading(conn: Conn)
    | Sending(conn: Conn, data: Bytes) | Closing(conn: Conn)
    | Unregistering | Done

  datatype Worker = Worker(
    source: string, place: Place,
    connected: bool, disconnectTime: Option<Time>, // None is the zero time
    dials: nat,                                    // connections made so far
    chunks: seq<Bytes>,                            // what it has read so far
    dropped: Option<Bytes>)                        // the chunk it gave up on, if any

  /** Stop: not called, about to take the lock, closing connections under it, waiting for
      the workers, returned. */
  datatype Stopping = NotCalled | Locking | Sweeping(todo: set<string>) | Waiting | Returned

  datatype State = State(
    workers: seq<Worker>,
    conns: map<string, Conn>,
    owners: seq<nat>,          // who dialled each connection
    open: set<Conn>,
    stopChanClosed: bool, stopping: Stopping,
    waitGroup: nat,
    buffer: seq<Chunk>, msgChanClosed: bool,
    enqueued: seq<Chunk>, received: seq<Chunk>)

  /** What a worker can do. */
  datatype Action =
    | Loop
    | DialFails(now: Time)
    | DialSucceeds
    | Wake
    | Register
    | Poll
    | ReadData(data: Bytes)
    | ReadTimesOut(silent: bool)  // silent: more than three seconds without a message
    | ReadFails
    | Enqueue
    | GiveUp
    | CloseConn
    | Unregister(now: Time)

  datatype Step =
    | Act(i: nat, action: Action)
    | CallStop
    | Sweep
    | SweepOne(source: string)
    | EndSweep
    | Return
    | Consume

  /** handleConnectionError: the new values and whether the retry is delayed. */
  function ConnectionError(connected: bool, disconnectTime: Option<Time>, now: Time): (bool, Option<Time>, bool) {
    var time := if connected && disconnectTime.None? then Some(now) else disconnectTime;
    (false, time, time.Some?)
  }

  /** handleSuccessfulConnection. */
  function SuccessfulConnection(connected: bool, disconnectTime: Option<Time>): (bool, Option<Time>) {
    (true, if connected then disconnectTime else None)
  }

  predicate CanAct(s: State, i: nat, action: Action) {
    i < |s.workers| &&
    var place := s.workers[i].place;
    match action
    case Loop => place.Top?
    case DialFails(_) => place.Dialing?
    case DialSucceeds => place.Dialing?
    case Wake => place.Backoff?
    case Register => place.Dialled? && !s.stopping.Sweeping?
    case Poll => place.Checking?
    case ReadData(_) => place.Reading? && place.conn in s.open
    case ReadTimesOut(_) => place.Reading? && place.conn in s.open
    case ReadFails => place.Reading?
    case Enqueue => place.Sending? && |s.buffer| < CAPACITY
    case GiveUp => place.Sending? && s.stopChanClosed
    case CloseConn => place.Closing?
    case Unregister(_) => place.Unregistering? && !s.stopping.Sweeping?
  }

  predicate Enabled(s: State, step: Step) {
    match step
    case Act(i, action) => CanAct(s, i, action)
    case CallStop => s.stopping.NotCalled?
    case Sweep => s.stopping.Locking?
    case SweepOne(source) => s.stopping.Sweeping? && source in s.stopping.todo && source in s.conns
    case EndSweep => s.stopping.Sweeping? && s.stopping.todo == {}
    case Return => s.stopping.Waiting? && s.waitGroup == 0
    case Consume => s.buffer != []
  }

  /** What the worker itself becomes. */
  function Moved(s: State, i: nat, action: Action): Worker
    requires CanAct(s, i, action)
  {
    var w := s.workers[i];
    match action
    case Loop => w.(place := if s.stopChanClosed then Done else Dialing)
    case DialFails(now) =>
      var (connected, time, sleeps) := ConnectionError(w.connected, w.disconnectTime, now);
      w.(connected := connected, disconnectTime := time, place := if sleeps then Backoff else Top)
    case DialSucceeds =>
      var (connected, time) := SuccessfulConnection(w.connected, w.disconnectTime);
      w.(connected := connected, disconnectTime := time, dials := w.dials + 1, place := Dialled(|s.owners|))
    case Wake => w.(place := Top)
    case Register => w.(place := Checking(w.place.conn))
    case Poll => w.(place := if s.stopChanClosed then Closing(w.place.conn) else Reading(w.place.conn))
    case ReadData(data) => w.(place := Sending(w.place.conn, data), chunks := w.chunks + [data])
    case ReadTimesOut(silent) => w.(place := if silent then Closing(w.place.conn) else Checking(w.place.conn))
    case ReadFails => w.(place := Closing(w.place.conn))
    case Enqueue => w.(place := Checking(w.place.conn))
    case GiveUp => w.(place := Closing(w.place.conn), dropped := Some(w.place.data))
    case CloseConn => w.(place := Unregistering)
    case Unregister(now) =>
      w.(place := Top, connected := false, disconnectTime := if w.connected then Some(now) else w.disconnectTime)
  }

  /** What it does to the shared state. */
  function Shared(s: State, i: nat, action: Action): State
    requires CanAct(s, i, action)
  {
    var w := s.workers[i];
    match action
    case Loop => if s.stopChanClosed && s.waitGroup > 0 then s.(waitGroup := s.waitGroup - 1) else s
    case DialSucceeds => s.(owners := s.owners + [i], open := s.open + {|s.owners|})
    case Register => s.(conns := s.conns[w.source := w.place.conn])
    case Enqueue =>
      var chunk := Chunk(i, w.place.data);
      s.(buffer := s.buffer + [chunk], enqueued := s.enqueued + [chunk])
    case CloseConn => s.(open := s.open - {w.place.conn})
    case Unregister(_) => s.(conns := s.conns - {w.source})
    case _ => s
  }

  function Next(s: State, step: Step): State
    requires Enabled(s, step)
  {
    match step
    case Act(i, action) => Shared(s, i, action).(workers := s.workers[i := Moved(s, i, action)])
    case CallStop => s.(stopChanClosed := true, stopping := Locking)
    case Sweep => s.(stopping := Sweeping(s.conns.Keys))
    case SweepOne(source) => s.(open := s.open - {s.conns[source]}, stopping := Sweeping(s.stopping.todo - {source}))
    case EndSweep => s.(stopping := Waiting)
    case Return => s.(msgChanClosed := true, stopping := Returned)
    case Consume => s.(buffer := s.buffer[1..], received := s.received + [s.buffer[0]])
  }

  // ---- Runs

  ghost predicate IsRun(s: State, steps: seq<Step>)
    decreases |steps|, 0
  {
    steps == [] || (IsRun(s, steps[..|steps| - 1]) && Enabled(Run(s, steps[..|steps| - 1]), steps[|steps| - 1]))
  }

  ghost function Run(s: State, steps: seq<Step>): State
    requires IsRun(s, steps)
    decreases |steps|, 1
  {
    if steps == [] then s else Next(Run(s, steps[..|steps| - 1]), steps[|steps| - 1])
  }

  function Fresh(sources: seq<string>): seq<Worker> {
    if sources == [] then []
    else Fresh(sources[..|sources| - 1]) + [Worker(sources[|sources| - 1], Top, false, None, 0, [], None)]
  }

  /** New and Start: one worker per source, sources possibly repeated. */
  function Started(sources: seq<string>): State {
    State(Fresh(sources), map[], [], {}, false, NotCalled, |sources|, [], false, [], [])
  }

  // ---- Invariants

  function Live(workers: seq<Worker>): nat {
    if workers == [] then 0
    else Live(workers[..|workers| - 1]) + (if workers[|workers| - 1].place.Done? then 0 else 1)
  }

  predicate Holds(place: Place, conn: Conn) {
    (place.Dialled? || place.Checking? || place.Reading? || place.Sending? || place.Closing?) && place.conn == conn
  }

  /** What worker `i` has read that is not in the channel's history. */
  function Pending(w: Worker): seq<Bytes> {
    if w.place.Sending? then [w.place.data] else if w.dropped.Some? then [w.dropped.value] else []
  }

  function From(chunks: seq<Chunk>, i: nat): seq<Bytes> {
    if chunks == [] then []
    else
      var before := From(chunks[..|chunks| - 1], i);
      if chunks[|chunks| - 1].worker == i then before + [chunks[|chunks| - 1].data] else before
  }

  predicate Unconnected(place: Place) {
    place.Top? || place.Dialing? || place.Backoff? || place.Done?
  }

  /** One worker on its own: it is connected exactly while it has a connection, it knows a
      disconnect time exactly when it has lost a connection before, and it has given up a
      chunk only if Stop was called, after which it only leaves. */
  predicate WorkerSound(w: Worker, stopChanClosed: bool) {
    && (w.connected <==> !Unconnected(w.place)) && (w.connected ==> w.dials > 0 && w.disconnectTime.None?)
    && (Unconnected(w.place) ==> (w.disconnectTime.Some? <==> w.dials > 0))
    && (w.place.Backoff? ==> w.dials > 0)
    && (w.dropped.Some? ==> stopChanClosed && (w.place.Closing? || w.place.Unregistering? || w.place.Top? || w.place.Done?))
    && (w.place.Done? ==> stopChanClosed)
  }

  ghost predicate Sound(s: State) {
    && s.waitGroup == Live(s.workers)
    && (s.stopChanClosed <==> !s.stopping.NotCalled?)
    && (s.msgChanClosed <==> s.stopping.Returned?) && (s.msgChanClosed ==> s.waitGroup == 0)
    && s.received + s.buffer == s.enqueued && |s.buffer| <= CAPACITY
    && forall i :: 0 <= i < |s.workers| ==> WorkerSound(s.workers[i], s.stopChanClosed)
  }

  /** Every open connection is in the hands of the worker that dialled it, registered or not. */
  ghost predicate Owned(s: State) {
    forall c :: c in s.open ==> c < |s.owners| && s.owners[c] < |s.workers| && Holds(s.workers[s.owners[c]].place, c)
  }

  /** The channel's history holds what each worker read, in its order, up to one last chunk. */
  ghost predicate Faithful(s: State) {
    forall i :: 0 <= i < |s.workers| ==> s.workers[i].chunks == From(s.enqueued, i) + Pending(s.workers[i])
  }

  lemma {:induction false} LiveUpdate(workers: seq<Worker>, i: nat, w: Worker)
    requires i < |workers|
    ensures Live(workers[i := w]) == Live(workers)
              - (if workers[i].place.Done? then 0 else 1) + (if w.place.Done? then 0 else 1)
  {
    var n := |workers| - 1;
    if i == n {
      assert workers[i := w][..n] == workers[..n];
    } else {
      LiveUpdate(workers[..n], i, w);
      assert workers[i := w][..n] == workers[..n][i := w];
    }
  }

  lemma WorkerStaysSound(s: State, i: nat, action: Action)
    requires CanAct(s, i, action) && WorkerSound(s.workers[i], s.stopChanClosed)
    ensures WorkerSound(Moved(s, i, action), s.stopChanClosed)
    ensures Moved(s, i, action).place.Done? <==> action.Loop? && s.stopChanClosed
  {
  }

  lemma ActionSound(s: State, i: nat, action: Action)
    requires Sound(s) && CanAct(s, i, action)
    ensures Sound(Next(s, Act(i, action)))
  {
    WorkerStaysSound(s, i, action);
    LiveUpdate(s.workers, i, Moved(s, i, action));
    if action.Enqueue? {
      var chunk := Chunk(i, s.workers[i].place.data);
      assert s.received + (s.buffer + [chunk]) == (s.received + s.buffer) + [chunk];
    }
  }

  lemma StepSound(s: State, step: Step)
    requires Sound(s) && Enabled(s, step)
    ensures Sound(Next(s, step))
  {
    if step.Act? {
      ActionSound(s, step.i, step.action);
    } else if step.Consume? {
      assert s.received + s.buffer == (s.received + [s.buffer[0]]) + s.buffer[1..];
    }
  }

  lemma StepOwned(s: State, step: Step)
    requires Owned(s) && Enabled(s, step)
    ensures Owned(Next(s, step))
  {
    if step.Act? {
      ActionOwned(s, step.i, step.action);
    }
  }

  lemma ActionOwned(s: State, i: nat, action: Action)
    requires Owned(s) && CanAct(s, i, action)
    ensures Owned(Next(s, Act(i, action)))
  {
    var w, w' := s.workers[i], Moved(s, i, action);
    assert action.DialSucceeds? || action.CloseConn? || forall c :: Holds(w.place, c) ==> Holds(w'.place, c);
  }

  lemma FromSnoc(chunks: seq<Chunk>, chunk: Chunk, i: nat)
    ensures From(chunks + [chunk], i) == if chunk.worker == i then From(chunks, i) + [chunk.data] else From(chunks, i)
  {
    assert (chunks + [chunk])[..|chunks|] == chunks;
  }

  lemma StepFaithful(s: State, step: Step)
    requires Sound(s) && Faithful(s) && Enabled(s, step)
    ensures Faithful(Next(s, step))
  {
    if step.Act? {
      if step.action.Enqueue? {
        EnqueueFaithful(s, step.i);
      } else {
        QuietFaithful(s, step.i, step.action);
      }
    }
  }

  lemma EnqueueFaithful(s: State, j: nat)
    requires Sound(s) && Faithful(s) && CanAct(s, j, Enqueue)
    ensures Faithful(Next(s, Act(j, Enqueue)))
  {
    assert WorkerSound(s.workers[j], s.stopChanClosed);
    var s' := Next(s, Act(j, Enqueue));
    forall i | 0 <= i < |s'.workers| ensures s'.workers[i].chunks == From(s'.enqueued, i) + Pending(s'.workers[i]) {
      FromSnoc(s.enqueued, Chunk(j, s.workers[j].place.data), i);
    }
  }

  lemma QuietFaithful(s: State, j: nat, action: Action)
    requires Sound(s) && Faithful(s) && CanAct(s, j, action) && !action.Enqueue?
    ensures Faithful(Next(s, Act(j, action)))
  {
    assert WorkerSound(s.workers[j], s.stopChanClosed);
    var s' := Next(s, Act(j, action));
    var w, w' := s.workers[j], Moved(s, j, action);
    assert s'.enqueued == s.enqueued;
    assert w'.chunks == From(s.enqueued, j) + Pending(w');
  }

  // ---- Registration and the sweep

  function SourcesOf(workers: seq<Worker>): set<string> {
    if workers == [] then {} else SourcesOf(workers[..|workers| - 1]) + {workers[|workers| - 1].source}
  }

  lemma {:induction false} SourcesUpdate(workers: seq<Worker>, i: nat, w: Worker)
    requires i < |workers| && w.source == workers[i].source
    ensures SourcesOf(workers[i := w]) == SourcesOf(workers) && w.source in SourcesOf(workers)
  {
    var n := |workers| - 1;
    if i == n {
      assert workers[i := w][..n] == workers[..n];
    } else {
      SourcesUpdate(workers[..n], i, w);
      assert workers[i := w][..n] == workers[..n][i := w];
    }
  }

  lemma {:induction false} FewSources(workers: seq<Worker>)
    ensures |SourcesOf(workers)| <= |workers|
  {
    if workers == [] {
    } else {
      FewSources(workers[..|workers| - 1]);
    }
  }

  /** Only sources are registered, and the sweep works through registered ones. */
  ghost predicate Registered(s: State) {
    && s.conns.Keys <= SourcesOf(s.workers)
    && (s.stopping.Sweeping? ==> s.stopping.todo <= s.conns.Keys)
  }

  lemma StepRegistered(s: State, step: Step)
    requires Registered(s) && Enabled(s, step)
    ensures Registered(Next(s, step)) && |Next(s, step).workers| == |s.workers|
  {
    if step.Act? {
      SourcesUpdate(s.workers, step.i, Moved(s, step.i, step.action));
    }
  }

  // ---- Every reachable state

  ghost predicate Invariant(s: State) {
    Sound(s) && Owned(s) && Faithful(s) && Registered(s)
  }

  lemma StepInvariant(s: State, step: Step)
    requires Invariant(s) && Enabled(s, step)
    ensures Invariant(Next(s, step))
  {
    StepSound(s, step);
    StepOwned(s, step);
    StepFaithful(s, step);
    StepRegistered(s, step);
  }

  lemma {:induction false} FreshWorkers(sources: seq<string>)
    ensures |Fresh(sources)| == |sources| && Live(Fresh(sources)) == |sources|
    ensures forall i :: 0 <= i < |sources| ==> Fresh(sources)[i] == Worker(sources[i], Top, false, None, 0, [], None)
  {
    if sources == [] {
    } else {
      FreshWorkers(sources[..|sources| - 1]);
    }
  }

  lemma StartInvariant(sources: seq<string>)
    ensures Invariant(Started(sources)) && |Started(sources).workers| == |sources|
  {
    FreshWorkers(sources);
  }

  /** From Start on, whatever the sources, the schedule and the network do. */
  lemma {:induction false} RunInvariant(sources: seq<string>, steps: seq<Step>)
    requires IsRun(Started(sources), steps)
    ensures Invariant(Run(Started(sources), steps)) && |Run(Started(sources), steps).workers| == |sources|
  {
    if steps == [] {
      StartInvariant(sources);
    } else {
      var front := steps[..|steps| - 1];
      RunInvariant(sources, front);
      StepInvariant(Run(Started(sources), front), steps[|steps| - 1]);
      StepRegistered(Run(Started(sources), front), steps[|steps| - 1]);
    }
  }

  lemma {:induction false} NoneLive(workers: seq<Worker>, i: nat)
    requires Live(workers) == 0 && i < |workers|
    ensures workers[i].place.Done?
  {
    if i < |workers| - 1 {
      NoneLive(workers[..|workers| - 1], i);
    }
  }

  /** The message channel is closed only after every worker is done, so no worker can be about
      to send on a closed channel. */
  lemma ChannelClosedLast(sources: seq<string>, steps: seq<Step>)
    requires IsRun(Started(sources), steps)
    ensures var s := Run(Started(sources), steps);
            && (s.msgChanClosed ==> forall i :: 0 <= i < |s.workers| ==> s.workers[i].place.Done?)
            && (forall i :: 0 <= i < |s.workers| && s.workers[i].place.Sending? ==> !s.msgChanClosed)
  {
    RunInvariant(sources, steps);
    var s := Run(Started(sources), steps);
    if s.msgChanClosed {
      forall i | 0 <= i < |s.workers| ensures s.workers[i].place.Done? {
        NoneLive(s.workers, i);
      }
    }
  }

  /** When Stop returns every connection ever dialled is closed: those it swept, those
      registered after the sweep, and those another worker of the same source displaced. */
  lemma StopClosesEverything(sources: seq<string>, steps: seq<Step>)
    requires IsRun(Started(sources), steps) && Run(Started(sources), steps).stopping.Returned?
    ensures Run(Started(sources), steps).open == {}
  {
    RunInvariant(sources, steps);
    ChannelClosedLast(sources, steps);
    var s := Run(Started(sources), steps);
    AllDoneAllClosed(s);
  }

  lemma AllDoneAllClosed(s: State)
    requires Owned(s) && forall i :: 0 <= i < |s.workers| ==> s.workers[i].place.Done?
    ensures s.open == {}
  {
    assert forall c :: c !in s.open;
  }

  /** What the channel has carried is an interleaving of what the workers read: restricted to
      one worker it is exactly that worker's reads, in order and across reconnects, except for
      a last one still in hand, or dropped after Stop. What was received and what is buffered
      make up all of it, and the buffer keeps to its capacity. */
  lemma MessagesFaithful(sources: seq<string>, steps: seq<Step>, i: nat)
    requires IsRun(Started(sources), steps) && i < |Run(Started(sources), steps).workers|
    ensures var s := Run(Started(sources), steps);
            var w := s.workers[i];
            && s.received + s.buffer == s.enqueued && |s.buffer| <= 1000
            && From(s.enqueued, i) <= w.chunks && |w.chunks| <= |From(s.enqueued, i)| + 1
            && (From(s.enqueued, i) != w.chunks && !w.place.Sending? ==>
                  s.stopChanClosed && !w.place.Dialing? && !w.place.Reading?)
  {
    RunInvariant(sources, steps);
    var s := Run(Started(sources), steps);
    assert WorkerSound(s.workers[i], s.stopChanClosed);
    assert s.workers[i].chunks == From(s.enqueued, i) + Pending(s.workers[i]);
  }

  /** The retry delay: a worker backs off after a failed dial exactly if it has been connected
      before; until its first connection it redials at once. */
  lemma BackoffAfterFirstConnection(sources: seq<string>, steps: seq<Step>, i: nat, now: Time)
    requires IsRun(Started(sources), steps) && i < |Run(Started(sources), steps).workers|
    requires CanAct(Run(Started(sources), steps), i, DialFails(now))
    ensures var s := Run(Started(sources), steps);
            Moved(s, i, DialFails(now)).place == if s.workers[i].dials > 0 then Backoff else Top
  {
    RunInvariant(sources, steps);
    assert WorkerSound(Run(Started(sources), steps).workers[i], Run(Started(sources), steps).stopChanClosed);
  }

  // ---- Stop always comes back

  /** How many steps a worker can still make once Stop has been called. */
  function Rank(place: Place): nat {
    match place
    case Done => 0
    case Top => 1
    case Backoff => 2
    case Unregistering => 2
    case Closing(_) => 3
    case Checking(_) => 4
    case Dialled(_) => 5
    case Sending(_, _) => 5
    case Reading(_) => 6
    case Dialing => 6
  }

  function Ranks(workers: seq<Worker>): nat {
    if workers == [] then 0 else Ranks(workers[..|workers| - 1]) + Rank(workers[|workers| - 1].place)
  }

  function StopRank(s: State): nat {
    match s.stopping
    case NotCalled => |s.workers| + 4
    case Locking => |s.workers| + 3
    case Sweeping(todo) => |todo| + 2
    case Waiting => 1
    case Returned => 0
  }

  function Measure(s: State): nat {
    Ranks(s.workers) + StopRank(s)
  }

  lemma {:induction false} RanksUpdate(workers: seq<Worker>, i: nat, w: Worker)
    requires i < |workers|
    ensures Ranks(workers[i := w]) == Ranks(workers) - Rank(workers[i].place) + Rank(w.place)
  {
    var n := |workers| - 1;
    if i == n {
      assert workers[i := w][..n] == workers[..n];
    } else {
      RanksUpdate(workers[..n], i, w);
      assert workers[i := w][..n] == workers[..n][i := w];
    }
  }

  lemma {:induction false} RanksBounded(workers: seq<Worker>)
    ensures Ranks(workers) <= 6 * |workers|
  {
    if workers == [] {
    } else {
      RanksBounded(workers[..|workers| - 1]);
    }
  }

  /** Once Stop has been called every step but the consumer's brings the end nearer. */
  lemma StepDecreases(s: State, step: Step)
    requires Registered(s) && s.stopChanClosed && !s.stopping.NotCalled? && Enabled(s, step)
    ensures var s' := Next(s, step);
            && s'.stopChanClosed && !s'.stopping.NotCalled?
            && (if step.Consume? then Measure(s') == Measure(s) else Measure(s') < Measure(s))
  {
    if step.Act? {
      ActionDecreases(s, step.i, step.action);
    } else if step.Sweep? {
      FewSources(s.workers);
      SubsetSize(s.conns.Keys, SourcesOf(s.workers));
    }
  }

  lemma ActionDecreases(s: State, i: nat, action: Action)
    requires s.stopChanClosed && CanAct(s, i, action)
    ensures var s' := Next(s, Act(i, action));
            Measure(s') < Measure(s) && s'.stopping == s.stopping && s'.stopChanClosed
  {
    RanksUpdate(s.workers, i, Moved(s, i, action));
    PlaceDecreases(s, i, action);
    SharedKeeps(s, i, action);
  }

  lemma PlaceDecreases(s: State, i: nat, action: Action)
    requires s.stopChanClosed && CanAct(s, i, action)
    ensures Rank(Moved(s, i, action).place) < Rank(s.workers[i].place)
  {
  }

  lemma SharedKeeps(s: State, i: nat, action: Action)
    requires CanAct(s, i, action)
    ensures var s' := Shared(s, i, action);
            s'.workers == s.workers && s'.stopping == s.stopping && s'.stopChanClosed == s.stopChanClosed
  {
  }

  lemma {:induction false} SubsetSize(a: set<string>, b: set<string>)
    requires a <= b
    ensures |a| <= |b|
  {
    if a == {} {
    } else {
      var x :| x in a;
      SubsetSize(a - {x}, b - {x});
    }
  }

  function Productive(steps: seq<Step>): nat {
    if steps == [] then 0
    else Productive(steps[..|steps| - 1]) + (if steps[|steps| - 1].Consume? then 0 else 1)
  }

  /** After Stop is called, any schedule whatever, with or without a consumer, makes at most
      7N + 3 steps of the workers and of Stop. */
  lemma {:induction false} StopIsBounded(s: State, steps: seq<Step>)
    requires Invariant(s) && s.stopChanClosed && IsRun(s, steps)
    ensures var s' := Run(s, steps);
            && Invariant(s') && s'.stopChanClosed
            && Productive(steps) + Measure(s') <= Measure(s) <= 7 * |s.workers| + 3
  {
    if steps == [] {
      RanksBounded(s.workers);
      StopRankBounded(s);
    } else {
      var front := steps[..|steps| - 1];
      StopIsBounded(s, front);
      StepDecreases(Run(s, front), steps[|steps| - 1]);
      StepInvariant(Run(s, front), steps[|steps| - 1]);
    }
  }

  lemma StopRankBounded(s: State)
    requires Invariant(s) && s.stopChanClosed
    ensures StopRank(s) <= |s.workers| + 3
  {
    if s.stopping.Sweeping? {
      FewSources(s.workers);
      SubsetSize(s.stopping.todo, SourcesOf(s.workers));
    }
  }

  /** What a worker that is not done can do after Stop was called, unless the lock is taken. */
  function Exit(s: State, i: nat): Action
    requires i < |s.workers| && !s.workers[i].place.Done?
  {
    match s.workers[i].place
    case Top => Loop
    case Dialing => DialFails(0)
    case Backoff => Wake
    case Dialled(_) => Register
    case Checking(_) => Poll
    case Reading(_) => ReadFails
    case Sending(_, _) => GiveUp
    case Closing(_) => CloseConn
    case Unregistering => Unregister(0)
  }

  lemma {:induction false} SomeLive(workers: seq<Worker>) returns (i: nat)
    requires Live(workers) > 0
    ensures i < |workers| && !workers[i].place.Done?
  {
    var n := |workers| - 1;
    if workers[n].place.Done? {
      i := SomeLive(workers[..n]);
    } else {
      i := n;
    }
  }

  /** No deadlock: until Stop has returned some worker or Stop itself can move, even with the
      buffer full and nobody reading, because Stop does not hold the lock while it waits. */
  lemma NeverDeadlocked(s: State) returns (step: Step)
    requires Invariant(s) && s.stopChanClosed && !s.stopping.Returned?
    ensures Enabled(s, step) && !step.Consume?
  {
    match s.stopping
    case NotCalled => step := CallStop;
    case Locking => step := Sweep;
    case Sweeping(todo) =>
      if todo == {} {
        step := EndSweep;
      } else {
        var source :| source in todo;
        step := SweepOne(source);
      }
    case Waiting =>
      if s.waitGroup == 0 {
        step := Return;
      } else {
        var i := SomeLive(s.workers);
        step := Act(i, Exit(s, i));
      }
  }

  /** So a schedule that cannot go on after Stop was called has ended well: Stop has returned,
      the channel is closed, every worker is done and every connection is closed. */
  lemma StoppedForGood(sources: seq<string>, steps: seq<Step>)
    requires IsRun(Started(sources), steps)
    requires var s := Run(Started(sources), steps);
             s.stopChanClosed && forall step :: Enabled(s, step) ==> step.Consume?
    ensures var s := Run(Started(sources), steps);
            && s.stopping.Returned? && s.msgChanClosed && s.open == {}
            && forall i :: 0 <= i < |s.workers| ==> s.workers[i].place.Done?
  {
    RunInvariant(sources, steps);
    var s := Run(Started(sources), steps);
    if !s.stopping.Returned? {
      var step := NeverDeadlocked(s);
      assert false;
    }
    ChannelClosedLast(sources, steps);
    StopClosesEverything(sources, steps);
  }

  // ---- Stop and pending reads

  predicate Past(place: Place) {
    place.Checking? || place.Reading? || place.Sending? || place.Closing? || place.Unregistering?
  }

  /** The map has a worker's own connection exactly from its registration to its removal. */
  ghost predicate Tracked(s: State, w: Worker) {
    if Past(w.place) then w.source in s.conns && (!w.place.Unregistering? ==> s.conns[w.source] == w.place.conn)
    else w.source !in s.conns && (w.place.Dialled? ==> w.place.conn < |s.owners|)
  }

  ghost predicate NoReadPending(s: State) {
    forall i :: 0 <= i < |s.workers| && s.workers[i].place.Reading? ==> s.workers[i].place.conn !in s.open
  }

  predicate Swept(s: State) {
    s.stopping.Waiting? || s.stopping.Returned?
  }

  ghost predicate Distinct(sources: seq<string>) {
    forall i, j :: 0 <= i < j < |sources| ==> sources[i] != sources[j]
  }

  ghost predicate Tracks(s: State) {
    && (forall i, j :: 0 <= i < j < |s.workers| ==> s.workers[i].source != s.workers[j].source)
    && (forall i :: 0 <= i < |s.workers| ==> Tracked(s, s.workers[i]))
    && (forall k :: k in s.conns ==> s.conns[k] < |s.owners|)
    && (s.stopping.Sweeping? ==> forall k :: k in s.conns && k !in s.stopping.todo ==> s.conns[k] !in s.open)
    && (!s.stopping.NotCalled? ==> s.stopChanClosed) && (Swept(s) ==> NoReadPending(s))
  }

  lemma StepTracks(s: State, step: Step)
    requires Tracks(s) && Enabled(s, step)
    ensures Tracks(Next(s, step))
  {
    match step
    case Act(i, action) => ActionTracks(s, i, action);
    case EndSweep => SweepEnds(s);
    case _ =>
      var s' := Next(s, step);
      forall i | 0 <= i < |s'.workers| ensures Tracked(s', s'.workers[i]) {
        assert Tracked(s, s.workers[i]);
      }
  }

  lemma SweepEnds(s: State)
    requires Tracks(s) && Enabled(s, EndSweep)
    ensures Tracks(Next(s, EndSweep))
  {
    var s' := Next(s, EndSweep);
    forall i | 0 <= i < |s'.workers| ensures Tracked(s', s'.workers[i]) {
      assert Tracked(s, s.workers[i]);
    }
  }

  lemma ActionTracks(s: State, i: nat, action: Action)
    requires Tracks(s) && CanAct(s, i, action)
    ensures Tracks(Next(s, Act(i, action)))
  {
    var s' := Next(s, Act(i, action));
    MovedTracked(s, i, action);
    forall j | 0 <= j < |s'.workers| ensures Tracked(s', s'.workers[j]) {
      if j != i {
        OtherTracked(s, i, action, j);
      }
    }
    if Swept(s) {
      NoNewRead(s, i, action);
    }
    ConnsTracked(s, i, action);
    hide Moved, Shared, Tracked, NoReadPending;
  }

  lemma MovedTracked(s: State, i: nat, action: Action)
    requires Tracks(s) && CanAct(s, i, action)
    ensures var s' := Next(s, Act(i, action));
            s'.workers[i].source == s.workers[i].source && Tracked(s', s'.workers[i])
  {
    assert Tracked(s, s.workers[i]);
  }

  lemma OtherTracked(s: State, i: nat, action: Action, j: nat)
    requires Tracks(s) && CanAct(s, i, action) && j < |s.workers| && j != i
    ensures Tracked(Next(s, Act(i, action)), s.workers[j])
  {
    assert Tracked(s, s.workers[j]) && s.workers[i].source != s.workers[j].source;
  }

  lemma ConnsTracked(s: State, i: nat, action: Action)
    requires Tracks(s) && CanAct(s, i, action)
    ensures var s' := Next(s, Act(i, action));
            && (forall k :: k in s'.conns ==> s'.conns[k] < |s'.owners|)
            && s'.stopping == s.stopping && s'.stopChanClosed == s.stopChanClosed
            && (s.stopping.Sweeping? ==> forall k :: k in s'.conns && k !in s.stopping.todo ==> s'.conns[k] !in s'.open)
  {
    assert Tracked(s, s.workers[i]);
    hide Moved;
  }

  lemma NoNewRead(s: State, i: nat, action: Action)
    requires Tracks(s) && CanAct(s, i, action) && Swept(s)
    ensures NoReadPending(Next(s, Act(i, action)))
  {
    var s' := Next(s, Act(i, action));
    forall j | 0 <= j < |s'.workers| && s'.workers[j].place.Reading? ensures s'.workers[j].place.conn !in s'.open {
      assert s'.workers[j] == s.workers[j] && Tracked(s, s.workers[j]);
    }
  }

  lemma {:induction false} RunTracks(sources: seq<string>, steps: seq<Step>)
    requires Distinct(sources) && IsRun(Started(sources), steps)
    ensures Tracks(Run(Started(sources), steps))
  {
    if steps == [] {
      FreshWorkers(sources);
    } else {
      RunTracks(sources, steps[..|steps| - 1]);
      StepTracks(Run(Started(sources), steps[..|steps| - 1]), steps[|steps| - 1]);
    }
  }

  lemma Extend(s: State, steps: seq<Step>, step: Step)
    requires IsRun(s, steps) && Enabled(Run(s, steps), step)
    ensures IsRun(s, steps + [step]) && Run(s, steps + [step]) == Next(Run(s, steps), step)
  {
    assert (steps + [step])[..|steps|] == steps;
  }

  /** A worker at the top of its loop dials, registers and starts to read. */
  lemma Connects(s: State, steps: seq<Step>, i: nat) returns (more: seq<Step>)
    requires IsRun(s, steps) && !Run(s, steps).stopChanClosed && Run(s, steps).stopping.NotCalled?
    requires i < |Run(s, steps).workers| && Run(s, steps).workers[i].place.Top?
    ensures IsRun(s, more)
    ensures var before, after := Run(s, steps), Run(s, more);
            && |after.workers| == |before.workers| && after.workers[i].place == Reading(|before.owners|)
            && (forall j :: 0 <= j < |before.workers| && j != i ==> after.workers[j] == before.workers[j])
            && after.conns == before.conns[before.workers[i].source := |before.owners|]
            && after.owners == before.owners + [i] && after.open == before.open + {|before.owners|}
            && !after.stopChanClosed && after.stopping.NotCalled?
  {
    Extend(s, steps, Act(i, Loop));
    more := steps + [Act(i, Loop)];
    Extend(s, more, Act(i, DialSucceeds));
    more := more + [Act(i, DialSucceeds)];
    Extend(s, more, Act(i, Register));
    more := more + [Act(i, Register)];
    Extend(s, more, Act(i, Poll));
    more := more + [Act(i, Poll)];
  }

  /** Two workers of one source: the second registration displaces the first connection, which
      Stop then does not close, and the first worker is still waiting for data. */
  lemma DisplacedReadWaits(sources: seq<string>, i: nat, j: nat) returns (steps: seq<Step>)
    requires i < j < |sources| && sources[i] == sources[j]
    ensures IsRun(Started(sources), steps)
    ensures Swept(Run(Started(sources), steps)) && !NoReadPending(Run(Started(sources), steps))
  {
    var s := Started(sources);
    FreshWorkers(sources);
    assert IsRun(s, []) && Run(s, []) == s;
    steps := Connects(s, [], i);
    steps := Connects(s, steps, j);
    var both := Run(s, steps);
    steps := SweepsOne(s, steps, sources[j], 1);
    assert both.workers[i].place == Reading(0);
  }

  lemma SweepsOne(s: State, steps: seq<Step>, source: string, conn: Conn) returns (more: seq<Step>)
    requires IsRun(s, steps) && Run(s, steps).stopping.NotCalled? && Run(s, steps).conns == map[source := conn]
    ensures IsRun(s, more)
    ensures Run(s, more) == Run(s, steps).(stopChanClosed := true, stopping := Waiting, open := Run(s, steps).open - {conn})
  {
    Extend(s, steps, CallStop);
    more := steps + [CallStop];
    Extend(s, more, Sweep);
    more := more + [Sweep];
    Extend(s, more, SweepOne(source));
    more := more + [SweepOne(source)];
    assert {source} - {source} == {};
    Extend(s, more, EndSweep);
    more := more + [EndSweep];
  }

  /** Once Stop has swept the connections, no worker is left in a read on an open one, in any
      schedule, if and only if the sources are distinct. Otherwise Stop still returns, but only
      after that read's own deadline. */
  lemma NoReadPendingExactly(sources: seq<string>)
    ensures Distinct(sources) <==>
              forall steps :: IsRun(Started(sources), steps) && Swept(Run(Started(sources), steps)) ==>
                NoReadPending(Run(Started(sources), steps))
  {
    if Distinct(sources) {
      forall steps | IsRun(Started(sources), steps) && Swept(Run(Started(sources), steps))
        ensures NoReadPending(Run(Started(sources), steps))
      {
        RunTracks(sources, steps);
      }
    } else {
      var i, j :| 0 <= i < j < |sources| && sources[i] == sources[j];
      var steps := DisplacedReadWaits(sources, i, j);
    }
  }

  /** The channel takes a message exactly while it holds fewer than a thousand. */
  lemma SendsExactly(s: State, i: nat)
    requires i < |s.workers| && s.workers[i].place.Sending?
    ensures Enabled(s, Act(i, Enqueue)) <==> |s.buffer| < 1000
    ensures Enabled(s, Act(i, GiveUp)) <==> s.stopChanClosed
  {
  }

  // ---- What ends a connection

  function ReadsOf(steps: seq<Step>, i: nat): seq<Bytes> {
    if steps == [] then []
    else
      var before, step := ReadsOf(steps[..|steps| - 1], i), steps[|steps| - 1];
      if step.Act? && step.i == i && step.action.ReadData? then before + [step.action.data] else before
  }

  /** What a worker is said to have read is what its reads delivered, in order. */
  lemma {:induction false} ChunksAreReads(sources: seq<string>, steps: seq<Step>, i: nat)
    requires IsRun(Started(sources), steps) && i < |sources|
    ensures |Run(Started(sources), steps).workers| == |sources|
    ensures Run(Started(sources), steps).workers[i].chunks == ReadsOf(steps, i)
  {
    FreshWorkers(sources);
    if steps == [] {
    } else {
      ChunksAreReads(sources, steps[..|steps| - 1], i);
      ChunkStep(Run(Started(sources), steps[..|steps| - 1]), steps[|steps| - 1], i);
    }
  }

  lemma ChunkStep(s: State, step: Step, i: nat)
    requires Enabled(s, step) && i < |s.workers|
    ensures |Next(s, step).workers| == |s.workers|
    ensures Next(s, step).workers[i].chunks
         == s.workers[i].chunks + (if step.Act? && step.i == i && step.action.ReadData? then [step.action.data] else [])
  {
  }

  /** A failed read, or a silence of more than three seconds. */
  predicate Ending(action: Action) {
    action.ReadFails? || (action.ReadTimesOut? && action.silent)
  }

  /** Without a connection to read from. */
  predicate Gone(place: Place) {
    place.Closing? || place.Unregistering? || Unconnected(place)
  }

  lemma GoneStays(s: State, step: Step, i: nat)
    requires Enabled(s, step) && i < |s.workers| && step != Act(i, DialSucceeds)
    requires Gone(s.workers[i].place) || (step.Act? && step.i == i && Ending(step.action))
    ensures |Next(s, step).workers| == |s.workers| && Gone(Next(s, step).workers[i].place)
  {
  }

  lemma {:induction false} GoneUntilDial(s: State, steps: seq<Step>, i: nat, k: nat)
    requires IsRun(s, steps) && k < |steps| && steps[k].Act? && steps[k].i == i && Ending(steps[k].action)
    requires forall j :: k < j < |steps| ==> steps[j] != Act(i, DialSucceeds)
    ensures i < |Run(s, steps).workers| && Gone(Run(s, steps).workers[i].place)
  {
    var n := |steps| - 1;
    if k == n {
      GoneStays(Run(s, steps[..n]), steps[n], i);
    } else {
      GoneUntilDial(s, steps[..n], i, k);
      GoneStays(Run(s, steps[..n]), steps[n], i);
    }
  }

  /** A worker reads again after a failed or silent read only once it has dialled again. */
  lemma NoReadAfterFailure(s: State, steps: seq<Step>, i: nat, k: nat, action: Action)
    requires IsRun(s, steps) && k < |steps| && steps[k].Act? && steps[k].i == i
    requires steps[k].action == ReadFails || steps[k].action == ReadTimesOut(true)
    requires CanAct(Run(s, steps), i, action) && (action.ReadData? || action.ReadTimesOut? || action.ReadFails?)
    ensures exists j :: k < j < |steps| && steps[j] == Act(i, DialSucceeds)
  {
    if forall j :: k < j < |steps| ==> steps[j] != Act(i, DialSucceeds) {
      GoneUntilDial(s, steps, i, k);
      assert false;
    }
  }

  /** And it comes to that dial: after the failure the connection is closed, its source removed and
      the loop begun again, each the one thing the worker can do. */
  lemma ClosesAndRedials(s: State, i: nat, action: Action)
    requires CanAct(s, i, action)
    ensures var (place, after) := (s.workers[i].place, Next(s, Act(i, action)));
            && (place.Reading? && Ending(action) ==> after.workers[i].place == Closing(place.conn))
            && (place.Closing? ==> action == CloseConn && after.workers[i].place == Unregistering && place.conn !in after.open)
            && (place.Unregistering? ==> action.Unregister? && after.workers[i].place == Top && s.workers[i].source !in after.conns)
            && (place.Top? ==> action == Loop && after.workers[i].place == if s.stopChanClosed then Done else Dialing)
            && (place.Dialing? ==> action.DialSucceeds? || action.DialFails?)
            && (place.Backoff? ==> action == Wake && after.workers[i].place == Top)
    ensures var (w, after) := (s.workers[i], Next(s, Act(i, action)).workers[i]);
            && (action.Unregister? ==> after.disconnectTime == if w.connected then Some(action.now) else w.disconnectTime)
            && (action.DialFails? && w.connected && w.disconnectTime == None ==> after.disconnectTime == Some(action.now))
            && (action.DialFails? ==> !after.connected && (after.place == Backoff <==> after.disconnectTime.Some?))
            && (action.DialSucceeds? ==> after.connected && after.place == Dialled(|s.owners|))
  {
  }

  /** In the read loop of this connection. */
  predicate InLoop(place: Place, conn: Conn) {
    (place.Checking? || place.Reading? || place.Sending?) && place.conn == conn
  }

  lemma LoopStep(s: State, step: Step, i: nat, conn: Conn)
    requires Enabled(s, step) && i < |s.workers| && InLoop(s.workers[i].place, conn) && !s.stopChanClosed
    requires !(step.Act? && step.i == i && Ending(step.action))
    ensures |Next(s, step).workers| == |s.workers| && InLoop(Next(s, step).workers[i].place, conn)
    ensures step == Act(i, ReadTimesOut(false)) ==> Next(s, step).workers[i].place == Checking(conn)
  {
  }

  lemma StopStays(s: State, step: Step)
    requires Enabled(s, step) && s.stopChanClosed
    ensures Next(s, step).stopChanClosed
  {
  }

  /** The other half: until Stop a worker leaves a connection only by a failed or silent read. A
      timeout that is not silent, a message sent and whatever others do keep it. */
  lemma {:induction false} KeepsConnection(s: State, steps: seq<Step>, i: nat, conn: Conn)
    requires IsRun(s, steps) && i < |s.workers| && InLoop(s.workers[i].place, conn)
    requires !Run(s, steps).stopChanClosed
    requires forall k :: 0 <= k < |steps| ==> !(steps[k].Act? && steps[k].i == i && Ending(steps[k].action))
    ensures |Run(s, steps).workers| == |s.workers| && InLoop(Run(s, steps).workers[i].place, conn)
  {
    if steps == [] {
    } else {
      var n := |steps| - 1;
      var before := Run(s, steps[..n]);
      if before.stopChanClosed {
        StopStays(before, steps[n]);
      }
      KeepsConnection(s, steps[..n], i, conn);
      LoopStep(before, steps[n], i, conn);
    }
  }
}
