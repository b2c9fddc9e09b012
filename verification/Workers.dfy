/** The code behind the capture machine (internal/capture/capture.go): the loops of one worker
    and Stop, as methods on the object whose fields they share. A round is a turn of the
    scheduler: the other goroutines make any steps they can, then this one makes its next, if
    it is not blocked. What a goroutine does in a number of rounds is determined by `Follow`;
    the nested loops are proved to do exactly that. */
module Workers {
  import opened Wrappers
  import opened M = Capture

  datatype Party = Connector(i: nat) | Stopper

  datatype Arrival = Data(data: Bytes) | TimedOut(silent: bool) | Broken

  /** The steps of others, and the answers of the network, the clock, `select` and map order. */
  datatype Round = Round(others: seq<Step>, dials: bool, now: Time, arrival: Arrival, sends: bool, pick: string)

  type World = nat -> Round

  predicate Makes(party: Party, step: Step) {
    match step
    case Act(i, _) => party == Connector(i)
    case Consume => false
    case _ => party.Stopper?
  }

  function Offered(s: State, party: Party, step: Step): State {
    if Enabled(s, step) && !Makes(party, step) then Next(s, step) else s
  }

  /** The others run: any of these steps that they can make when its turn comes. */
  function OthersRun(s: State, party: Party, steps: seq<Step>): State
    decreases |steps|
  {
    if steps == [] then s else OthersRun(Offered(s, party, steps[0]), party, steps[1..])
  }

  /** The worker's next action, unless it waits for the mutex, for room or for the end. */
  function WorkerChoice(s: State, i: nat, round: Round): Option<Action>
    requires i < |s.workers|
  {
    match s.workers[i].place
    case Top => Some(Loop)
    case Dialing => Some(if round.dials then DialSucceeds else DialFails(round.now))
    case Backoff => Some(Wake)
    case Dialled(_) => if s.stopping.Sweeping? then None else Some(Register)
    case Checking(_) => Some(Poll)
    case Reading(conn) => Some(ReadChoice(conn in s.open, round.arrival))
    case Sending(_, _) =>
      if |s.buffer| < CAPACITY && (round.sends || !s.stopChanClosed) then Some(Enqueue)
      else if s.stopChanClosed then Some(GiveUp)
      else None
    case Closing(_) => Some(CloseConn)
    case Unregistering => if s.stopping.Sweeping? then None else Some(Unregister(round.now))
    case Done => None
  }

  function ReadChoice(open: bool, arrival: Arrival): Action {
    if !open then ReadFails
    else
      match arrival
      case Data(data) => ReadData(data)
      case TimedOut(silent) => ReadTimesOut(silent)
      case Broken => ReadFails
  }

  function StopChoice(s: State, round: Round): Option<Step> {
    match s.stopping
    case NotCalled => Some(CallStop)
    case Locking => Some(Sweep)
    case Sweeping(todo) =>
      if todo == {} then Some(EndSweep)
      else if round.pick in todo && round.pick in s.conns then Some(SweepOne(round.pick))
      else None
    case Waiting => if s.waitGroup == 0 then Some(Return) else None
    case Returned => None
  }

  function Choice(s: State, party: Party, round: Round): (step: Option<Step>)
    ensures step.Some? ==> Enabled(s, step.value) && Makes(party, step.value)
  {
    match party
    case Stopper => StopChoice(s, round)
    case Connector(i) =>
      if i >= |s.workers| then None
      else
        match WorkerChoice(s, i, round)
        case Some(action) => Some(Act(i, action))
        case None => None
  }

  /** One round. */
  function Turn(s: State, party: Party, round: Round): State {
    var s' := OthersRun(s, party, round.others);
    match Choice(s', party, round)
    case Some(step) => Next(s', step)
    case None => s'
  }

  lemma TurnIs(s: State, i: nat, round: Round, action: Action)
    requires i < |OthersRun(s, Connector(i), round.others).workers|
    requires WorkerChoice(OthersRun(s, Connector(i), round.others), i, round) == Some(action)
    ensures CanAct(OthersRun(s, Connector(i), round.others), i, action)
    ensures Turn(s, Connector(i), round) == Next(OthersRun(s, Connector(i), round.others), Act(i, action))
  {
  }

  /** `n` rounds, counted down. */
  function Follow(s: State, party: Party, world: World, n: nat): State
    decreases n
  {
    if n == 0 then s else Follow(Turn(s, party, world(n - 1)), party, world, n - 1)
  }

  // ---- The machine and the goroutines match both ways

  /** The machine has no step too many: a worker can act exactly as some round has its code act. */
  lemma ActionsAreChoices(s: State, i: nat, action: Action)
    requires i < |s.workers|
    ensures CanAct(s, i, action) <==> exists round :: WorkerChoice(s, i, round) == Some(action)
  {
    if CanAct(s, i, action) {
      var now := match action case DialFails(t) => t case Unregister(t) => t case _ => 0;
      var arrival :=
        match action
        case ReadData(data) => Data(data)
        case ReadTimesOut(silent) => TimedOut(silent)
        case _ => Broken;
      var round := Round([], action.DialSucceeds?, now, arrival, action.Enqueue?, "");
      assert WorkerChoice(s, i, round) == Some(action);
    }
  }

  ghost predicate Reachable(sources: seq<string>, s: State) {
    exists steps :: IsRun(Started(sources), steps) && Run(Started(sources), steps) == s
  }

  lemma StepReachable(sources: seq<string>, s: State, step: Step)
    requires Reachable(sources, s) && Enabled(s, step)
    ensures Reachable(sources, Next(s, step))
  {
    var steps :| IsRun(Started(sources), steps) && Run(Started(sources), steps) == s;
    Extend(Started(sources), steps, step);
  }

  lemma {:induction false} OthersReachable(sources: seq<string>, s: State, party: Party, steps: seq<Step>)
    requires Reachable(sources, s)
    ensures Reachable(sources, OthersRun(s, party, steps))
    decreases |steps|
  {
    if steps == [] {
    } else {
      if Enabled(s, steps[0]) && !Makes(party, steps[0]) {
        StepReachable(sources, s, steps[0]);
      }
      OthersReachable(sources, Offered(s, party, steps[0]), party, steps[1..]);
    }
  }

  /** Whatever the other goroutines and the network do, the code stays within the machine: from
      a reachable state it reaches only reachable states. */
  lemma {:induction false} FollowReachable(sources: seq<string>, s: State, party: Party, world: World, n: nat)
    requires Reachable(sources, s)
    ensures Reachable(sources, Follow(s, party, world, n))
    decreases n
  {
    if n == 0 {
    } else {
      var round := world(n - 1);
      OthersReachable(sources, s, party, round.others);
      var s' := OthersRun(s, party, round.others);
      if Choice(s', party, round).Some? {
        StepReachable(sources, s', Choice(s', party, round).value);
      }
      FollowReachable(sources, Turn(s, party, round), party, world, n - 1);
    }
  }

  /** When the code of Stop returns, from any moment of any run, every worker is done, the
      channel is closed and so is every connection ever dialled. */
  lemma StopReturnsClean(sources: seq<string>, s: State, world: World, n: nat)
    requires Reachable(sources, s)
    ensures var s' := Follow(s, Stopper, world, n);
            s'.stopping.Returned? ==>
              && s'.msgChanClosed && s'.open == {}
              && forall i :: 0 <= i < |s'.workers| ==> s'.workers[i].place.Done?
  {
    FollowReachable(sources, s, Stopper, world, n);
    var s' := Follow(s, Stopper, world, n);
    if s'.stopping.Returned? {
      var steps :| IsRun(Started(sources), steps) && Run(Started(sources), steps) == s';
      RunInvariant(sources, steps);
      ChannelClosedLast(sources, steps);
      StopClosesEverything(sources, steps);
    }
  }

  // ---- What the others leave alone

  /** The others cannot move this goroutine, take the mutex from Stop or reopen a channel. */
  ghost predicate LeftAlone(s: State, s': State, party: Party) {
    && |s'.workers| == |s.workers|
    && (party.Connector? && party.i < |s.workers| ==> s'.workers[party.i] == s.workers[party.i])
    && (party.Stopper? ==> s'.stopping == s.stopping)
    && (party.Stopper? && s.stopping.Sweeping? ==> s'.conns == s.conns)
    && (s.stopChanClosed ==> s'.stopChanClosed)
  }

  lemma OthersLeaveOnce(s: State, party: Party, step: Step)
    requires Enabled(s, step) && !Makes(party, step)
    ensures LeftAlone(s, Next(s, step), party)
  {
    if step.Act? {
      SharedLeaves(s, step.i, step.action);
      hide Shared, Moved;
    }
  }

  lemma SharedLeaves(s: State, i: nat, action: Action)
    requires CanAct(s, i, action)
    ensures var s' := Shared(s, i, action);
            && s'.workers == s.workers && s'.stopping == s.stopping && s'.stopChanClosed == s.stopChanClosed
            && (s.stopping.Sweeping? ==> s'.conns == s.conns)
  {
  }

  lemma {:induction false} OthersLeave(s: State, party: Party, steps: seq<Step>)
    ensures LeftAlone(s, OthersRun(s, party, steps), party)
    decreases |steps|
  {
    if steps == [] {
    } else {
      if Enabled(s, steps[0]) && !Makes(party, steps[0]) {
        OthersLeaveOnce(s, party, steps[0]);
      }
      OthersLeave(Offered(s, party, steps[0]), party, steps[1..]);
    }
  }

  // ---- The code

  class Capturer {
    var workers: seq<Worker>     // where each goroutine is, and its local variables
    var conns: map<string, Conn>
    var owners: seq<nat>
    var open: set<Conn>
    var stopChanClosed: bool
    var stopping: Stopping
    var wg: nat
    var msgChan: seq<Chunk>
    var msgChanClosed: bool
    var enqueued: seq<Chunk>
    var received: seq<Chunk>

    function View(): State
      reads this
    {
      State(workers, conns, owners, open, stopChanClosed, stopping, wg, msgChan, msgChanClosed, enqueued, received)
    }

    /** New and Start. */
    constructor (sources: seq<string>)
      ensures View() == Started(sources)
    {
      workers, conns, owners, open := Fresh(sources), map[], [], {};
      stopChanClosed, stopping, wg := false, NotCalled, |sources|;
      msgChan, msgChanClosed, enqueued, received := [], false, [], [];
    }

    method Become(s: State)
      modifies this
      ensures View() == s
    {
      workers, conns, owners, open := s.workers, s.conns, s.owners, s.open;
      stopChanClosed, stopping, wg := s.stopChanClosed, s.stopping, s.waitGroup;
      msgChan, msgChanClosed, enqueued, received := s.buffer, s.msgChanClosed, s.enqueued, s.received;
    }

    method Others(party: Party, steps: seq<Step>)
      modifies this
      ensures View() == OthersRun(old(View()), party, steps)
      ensures LeftAlone(old(View()), View(), party)
    {
      var n := 0;
      while n < |steps|
        invariant 0 <= n <= |steps|
        invariant OthersRun(View(), party, steps[n..]) == OthersRun(old(View()), party, steps)
      {
        var s := View();
        assert steps[n..][0] == steps[n] && steps[n..][1..] == steps[n + 1..];
        if Enabled(s, steps[n]) && !Makes(party, steps[n]) {
          Become(Next(s, steps[n]));
        }
        n := n + 1;
      }
      OthersLeave(old(View()), party, steps);
    }

    /** Goroutine `i` has made its step: the shared fields are already as it leaves them. */
    method Moves(i: nat, action: Action, before: State)
      requires CanAct(before, i, action) && View() == Shared(before, i, action)
      modifies `workers
      ensures View() == Next(before, Act(i, action))
    {
      workers := workers[i := Moved(before, i, action)];
    }

    /** Goroutine `i` is at `place` with these local variables. */
    predicate At(i: nat, place: Place, connected: bool, disconnectTime: Option<Time>)
      reads this
    {
      i < |workers| && workers[i].place == place
      && workers[i].connected == connected && workers[i].disconnectTime == disconnectTime
    }

    predicate Like(i: nat, place: Place, local: Worker)
      reads this
    {
      At(i, place, local.connected, local.disconnectTime) && workers[i].source == local.source
    }

    // ---- connectToSource and handleConnection, step by step

    /** The select at the top of the loop; leaving runs the deferred wg.Done. */
    method Select(i: nat, round: Round) returns (stopped: bool)
      requires i < |workers| && workers[i].place.Top?
      modifies this
      ensures View() == Turn(old(View()), Connector(i), round)
      ensures old(stopChanClosed) ==> stopped
      ensures At(i, if stopped then Done else Dialing, old(workers[i].connected), old(workers[i].disconnectTime))
    {
      Others(Connector(i), round.others);
      var before := View();
      stopped := stopChanClosed;
      if stopped && wg > 0 { wg := wg - 1; }
      Moves(i, Loop, before);
    }

    method HandleConnectionError(connected: bool, disconnectTime: Option<Time>, now: Time)
      returns (connected': bool, disconnectTime': Option<Time>, slept: bool)
      ensures (connected', disconnectTime', slept) == ConnectionError(connected, disconnectTime, now)
    {
      connected', disconnectTime', slept := connected, disconnectTime, false;
      if connected' {
        if disconnectTime' == None { disconnectTime' := Some(now); }
        connected' := false;
      }
      if !connected' && disconnectTime' != None { slept := true; }
    }

    method HandleSuccessfulConnection(connected: bool, disconnectTime: Option<Time>)
      returns (connected': bool, disconnectTime': Option<Time>)
      ensures (connected', disconnectTime') == SuccessfulConnection(connected, disconnectTime)
    {
      connected', disconnectTime' := connected, disconnectTime;
      if !connected' {
        if disconnectTime' != None { disconnectTime' := None; }
        connected' := true;
      }
    }

    method Dial(i: nat, round: Round, connected: bool, disconnectTime: Option<Time>)
      returns (conn: Option<Conn>, connected': bool, disconnectTime': Option<Time>, slept: bool)
      requires At(i, Dialing, connected, disconnectTime)
      modifies this
      ensures View() == Turn(old(View()), Connector(i), round)
      ensures At(i, if conn.Some? then Dialled(conn.value) else if slept then Backoff else Top, connected', disconnectTime')
    {
      Others(Connector(i), round.others);
      var before := View();
      conn, slept := None, false;
      if round.dials {
        conn := Some(|owners|);
        owners, open := owners + [i], open + {|owners|};
        connected', disconnectTime' := HandleSuccessfulConnection(connected, disconnectTime);
        Moves(i, DialSucceeds, before);
      } else {
        connected', disconnectTime', slept := HandleConnectionError(connected, disconnectTime, round.now);
        Moves(i, DialFails(round.now), before);
      }
    }

    method Sleep(i: nat, round: Round)
      requires i < |workers| && workers[i].place.Backoff?
      modifies this
      ensures View() == Turn(old(View()), Connector(i), round)
      ensures At(i, Top, old(workers[i].connected), old(workers[i].disconnectTime))
    {
      Others(Connector(i), round.others);
      Moves(i, Wake, View());
    }

    /** One try for the mutex, to register the connection. */
    method TryRegister(i: nat, conn: Conn, round: Round, local: Worker) returns (locked: bool)
      requires Like(i, Dialled(conn), local)
      modifies this
      ensures View() == Turn(old(View()), Connector(i), round)
      ensures Like(i, if locked then Checking(conn) else Dialled(conn), local)
    {
      Others(Connector(i), round.others);
      locked := !stopping.Sweeping?;
      if locked {
        var before := View();
        conns := conns[local.source := conn];
        Moves(i, Action.Register, before);
      }
    }

    method Register(i: nat, conn: Conn, world: World, rounds: nat, local: Worker) returns (left: nat, running: bool)
      requires Like(i, Dialled(conn), local)
      modifies this
      ensures left <= rounds && (!running ==> left == 0)
      ensures Follow(old(View()), Connector(i), world, rounds) == Follow(View(), Connector(i), world, left)
      ensures Like(i, if running then Checking(conn) else Dialled(conn), local)
    {
      hide Turn;
      left, running := rounds, false;
      while !running && left > 0
        invariant left <= rounds
        invariant Follow(old(View()), Connector(i), world, rounds) == Follow(View(), Connector(i), world, left)
        invariant Like(i, if running then Checking(conn) else Dialled(conn), local)
        decreases left
      {
        left := left - 1;
        running := TryRegister(i, conn, world(left), local);
      }
    }

    /** One try for the mutex, to remove the source from the map. */
    method TryRemove(i: nat, round: Round, local: Worker) returns (locked: bool)
      requires Like(i, Unregistering, local)
      modifies this
      ensures View() == Turn(old(View()), Connector(i), round)
      ensures if locked then At(i, Top, false, if local.connected then Some(round.now) else local.disconnectTime)
              else Like(i, Unregistering, local)
    {
      Others(Connector(i), round.others);
      locked := !stopping.Sweeping?;
      if locked {
        var before := View();
        conns := conns - {local.source};
        Moves(i, Unregister(round.now), before);
      }
    }

    method Remove(i: nat, world: World, rounds: nat, local: Worker) returns (left: nat, now: Time, running: bool)
      requires Like(i, Unregistering, local)
      modifies this
      ensures left <= rounds && (!running ==> left == 0)
      ensures Follow(old(View()), Connector(i), world, rounds) == Follow(View(), Connector(i), world, left)
      ensures running ==> At(i, Top, false, if local.connected then Some(now) else local.disconnectTime)
    {
      hide Turn;
      left, now, running := rounds, 0, false;
      while !running && left > 0
        invariant left <= rounds
        invariant Follow(old(View()), Connector(i), world, rounds) == Follow(View(), Connector(i), world, left)
        invariant if running then At(i, Top, false, if local.connected then Some(now) else local.disconnectTime)
                  else Like(i, Unregistering, local)
        decreases left
      {
        left := left - 1;
        now := world(left).now;
        running := TryRemove(i, world(left), local);
      }
    }

    /** The select of the read loop. */
    method Check(i: nat, conn: Conn, round: Round, local: Worker) returns (stopped: bool)
      requires Like(i, Checking(conn), local)
      modifies this
      ensures View() == Turn(old(View()), Connector(i), round)
      ensures old(stopChanClosed) ==> stopped
      ensures Like(i, if stopped then Closing(conn) else Reading(conn), local)
    {
      Others(Connector(i), round.others);
      stopped := stopChanClosed;
      Moves(i, Poll, View());
    }

    /** One read: what to send, whether to read on without sending, or neither. */
    method Read(i: nat, conn: Conn, round: Round, local: Worker) returns (data: Option<Bytes>, reading: bool)
      requires Like(i, Reading(conn), local)
      modifies this
      ensures View() == Turn(old(View()), Connector(i), round)
      ensures Like(i, if data.Some? then Sending(conn, data.value) else if reading then Checking(conn) else Closing(conn), local)
    {
      Others(Connector(i), round.others);
      TurnIs(old(View()), i, round, ReadChoice(conn in open, round.arrival));
      hide Turn, WorkerChoice;
      data, reading := None, false;
      if conn !in open || round.arrival.Broken? {
        Moves(i, ReadFails, View());
      } else if round.arrival.TimedOut? {
        reading := !round.arrival.silent;
        Moves(i, ReadTimesOut(round.arrival.silent), View());
      } else {
        data := Some(round.arrival.data);
        Moves(i, ReadData(round.arrival.data), View());
      }
    }

    /** One round of the select between sending and stopping. */
    method TrySend(i: nat, conn: Conn, data: Bytes, round: Round, local: Worker) returns (sent: bool, gaveUp: bool)
      requires Like(i, Sending(conn, data), local)
      modifies this
      ensures View() == Turn(old(View()), Connector(i), round)
      ensures Like(i, if sent then Checking(conn) else if gaveUp then Closing(conn) else Sending(conn, data), local)
    {
      Others(Connector(i), round.others);
      var before := View();
      sent, gaveUp := false, false;
      if |msgChan| < CAPACITY && (round.sends || !stopChanClosed) {
        TurnIs(old(View()), i, round, Enqueue);
        msgChan := msgChan + [Chunk(i, data)];
        enqueued := enqueued + [Chunk(i, data)];
        sent := true;
        Moves(i, Enqueue, before);
      } else if stopChanClosed {
        gaveUp := true;
        Moves(i, GiveUp, before);
      }
    }

    /** The send on the message channel or the stop channel, whichever is ready first. */
    method Offer(i: nat, conn: Conn, data: Bytes, world: World, rounds: nat, local: Worker)
      returns (left: nat, sent: bool, running: bool)
      requires Like(i, Sending(conn, data), local)
      modifies this
      ensures left <= rounds && (!running ==> left == 0)
      ensures Follow(old(View()), Connector(i), world, rounds) == Follow(View(), Connector(i), world, left)
      ensures running ==> Like(i, if sent then Checking(conn) else Closing(conn), local)
    {
      hide Turn;
      left, sent, running := rounds, false, false;
      while !running && left > 0
        invariant left <= rounds
        invariant Follow(old(View()), Connector(i), world, rounds) == Follow(View(), Connector(i), world, left)
        invariant Like(i, if !running then Sending(conn, data) else if sent then Checking(conn) else Closing(conn), local)
        decreases left
      {
        left := left - 1;
        var gaveUp;
        sent, gaveUp := TrySend(i, conn, data, world(left), local);
        running := sent || gaveUp;
      }
    }

    /** One turn of the read loop; `reading` says whether to loop again. */
    method ReadOnce(i: nat, conn: Conn, world: World, rounds: nat, local: Worker)
      returns (left: nat, reading: bool, running: bool)
      requires Like(i, Checking(conn), local)
      modifies this
      ensures left <= rounds && (rounds > 0 ==> left < rounds) && (!running ==> left == 0)
      ensures Follow(old(View()), Connector(i), world, rounds) == Follow(View(), Connector(i), world, left)
      ensures running ==> Like(i, if reading then Checking(conn) else Closing(conn), local)
    {
      hide Turn;
      if rounds == 0 { return 0, true, false; }
      left := rounds - 1;
      var stopped := Check(i, conn, world(left), local);
      if stopped { return left, false, true; }
      if left == 0 { return 0, true, false; }
      left := left - 1;
      var data;
      data, reading := Read(i, conn, world(left), local);
      running := true;
      if data.Some? {
        left, reading, running := Offer(i, conn, data.value, world, left, local);
      }
    }

    method HandleConnection(i: nat, conn: Conn, world: World, rounds: nat, local: Worker) returns (left: nat, running: bool)
      requires Like(i, Checking(conn), local)
      modifies this
      ensures left <= rounds && (!running ==> left == 0)
      ensures Follow(old(View()), Connector(i), world, rounds) == Follow(View(), Connector(i), world, left)
      ensures running ==> Like(i, Unregistering, local)
    {
      hide Turn;
      left, running := rounds, true;
      var reading := true;
      while reading && left > 0
        invariant left <= rounds && (!running ==> left == 0)
        invariant Follow(old(View()), Connector(i), world, rounds) == Follow(View(), Connector(i), world, left)
        invariant running ==> Like(i, if reading then Checking(conn) else Closing(conn), local)
        decreases left
      {
        left, reading, running := ReadOnce(i, conn, world, left, local);
      }
      if left == 0 { return 0, false; }
      left := left - 1;
      CloseConnection(i, conn, world(left), local);
    }

    /** The deferred Close. */
    method CloseConnection(i: nat, conn: Conn, round: Round, local: Worker)
      requires Like(i, Closing(conn), local)
      modifies this
      ensures View() == Turn(old(View()), Connector(i), round)
      ensures Like(i, Unregistering, local)
    {
      Others(Connector(i), round.others);
      var before := View();
      open := open - {conn};
      Moves(i, CloseConn, before);
    }

    /** A dialled connection: registered, handled, removed. */
    method Session(i: nat, conn: Conn, world: World, rounds: nat, local: Worker) returns (left: nat, now: Time, running: bool)
      requires Like(i, Dialled(conn), local)
      modifies this
      ensures left <= rounds && (!running ==> left == 0)
      ensures Follow(old(View()), Connector(i), world, rounds) == Follow(View(), Connector(i), world, left)
      ensures running ==> At(i, Top, false, if local.connected then Some(now) else local.disconnectTime)
    {
      now := 0;
      left, running := Register(i, conn, world, rounds, local);
      if !running { return; }
      left, running := HandleConnection(i, conn, world, left, local);
      if !running { return; }
      left, now, running := Remove(i, world, left, local);
    }

    /** The loop body after the select: dial, then wait or hold a session. */
    method Connect(i: nat, world: World, rounds: nat, connected: bool, disconnectTime: Option<Time>)
      returns (left: nat, connected': bool, disconnectTime': Option<Time>, running: bool)
      requires At(i, Dialing, connected, disconnectTime)
      modifies this
      ensures left <= rounds && (!running ==> left == 0)
      ensures Follow(old(View()), Connector(i), world, rounds) == Follow(View(), Connector(i), world, left)
      ensures running ==> At(i, Top, connected', disconnectTime')
    {
      hide Turn;
      if rounds == 0 { return 0, connected, disconnectTime, false; }
      left := rounds - 1;
      var conn, slept;
      conn, connected', disconnectTime', slept := Dial(i, world(left), connected, disconnectTime);
      if conn.Some? {
        var now;
        left, now, running := Session(i, conn.value, world, left, workers[i]);
        if connected' {
          disconnectTime' := Some(now);
          connected' := false;
        }
      } else if slept {
        if left == 0 { return 0, connected', disconnectTime', false; }
        left := left - 1;
        Sleep(i, world(left));
        running := true;
      } else {
        running := true;
      }
    }

    /** The goroutine of one source. In however many rounds it is given it does exactly what the
        machine's worker does in them, stopping early only by its own deferred wg.Done. */
    method ConnectToSource(i: nat, world: World, rounds: nat) returns (left: nat, done: bool)
      requires At(i, Top, false, None)
      modifies this
      ensures left <= rounds && (!done ==> left == 0)
      ensures Follow(old(View()), Connector(i), world, rounds) == Follow(View(), Connector(i), world, left)
      ensures done ==> i < |workers| && workers[i].place.Done?
      ensures old(stopChanClosed) && rounds > 0 ==> done && left == rounds - 1
    {
      hide Turn;
      var connected, disconnectTime: Option<Time> := false, None;
      var running := true;
      left := rounds;
      while left > 0
        invariant left <= rounds && (!running ==> left == 0)
        invariant Follow(old(View()), Connector(i), world, rounds) == Follow(View(), Connector(i), world, left)
        invariant running ==> At(i, Top, connected, disconnectTime)
        invariant old(stopChanClosed) ==> stopChanClosed && left == rounds
        decreases left
      {
        left := left - 1;
        done := Select(i, world(left));
        if done { return; }
        left, connected, disconnectTime, running := Connect(i, world, left, connected, disconnectTime);
      }
      done := false;
    }

    // ---- Stop

    /** Closes the stop channel. */
    method CloseStopChan(round: Round)
      requires stopping.NotCalled?
      modifies this
      ensures View() == Turn(old(View()), Stopper, round) && stopping.Locking? && stopChanClosed
    {
      Others(Stopper, round.others);
      stopChanClosed, stopping := true, Stopping.Locking;
    }

    method TakeMutex(round: Round)
      requires stopping.Locking?
      modifies this
      ensures View() == Turn(old(View()), Stopper, round) && stopping == Sweeping(conns.Keys)
      ensures old(stopChanClosed) ==> stopChanClosed
    {
      Others(Stopper, round.others);
      stopping := Sweeping(conns.Keys);
    }

    /** One entry of the map, if the iteration has one ready; `todo` are those left. */
    method CloseNext(todo: set<string>, round: Round) returns (todo': set<string>)
      requires stopping == Sweeping(todo) && todo != {} && todo <= conns.Keys
      modifies this
      ensures View() == Turn(old(View()), Stopper, round)
      ensures stopping == Sweeping(todo') && todo' == todo - {round.pick} && todo' <= conns.Keys
      ensures old(stopChanClosed) ==> stopChanClosed
    {
      Others(Stopper, round.others);
      todo' := todo - {round.pick};
      if round.pick in todo {
        open := open - {conns[round.pick]};
        stopping := Sweeping(todo');
      }
    }

    /** The loop over the registered connections, under the mutex, until it is released. */
    method CloseAll(world: World, rounds: nat) returns (left: nat, swept: bool)
      requires stopping == Sweeping(conns.Keys)
      modifies this
      ensures left <= rounds && (!swept ==> left == 0)
      ensures Follow(old(View()), Stopper, world, rounds) == Follow(View(), Stopper, world, left)
      ensures swept ==> stopping.Waiting?
      ensures old(stopChanClosed) ==> stopChanClosed
    {
      hide Turn;
      left := rounds;
      var todo := conns.Keys;
      while todo != {} && left > 0
        invariant left <= rounds && stopping == Sweeping(todo) && todo <= conns.Keys
        invariant Follow(old(View()), Stopper, world, rounds) == Follow(View(), Stopper, world, left)
        invariant old(stopChanClosed) ==> stopChanClosed
        decreases left
      {
        left := left - 1;
        todo := CloseNext(todo, world(left));
      }
      if left == 0 { return 0, false; }
      left := left - 1;
      FreeMutex(world(left));
      swept := true;
    }

    method FreeMutex(round: Round)
      requires stopping == Sweeping({})
      modifies this
      ensures View() == Turn(old(View()), Stopper, round) && stopping.Waiting?
      ensures old(stopChanClosed) ==> stopChanClosed
    {
      Others(Stopper, round.others);
      stopping := Waiting;
    }

    /** wg.Wait in one round, and the close of the message channel if it is over. */
    method TryReturn(round: Round) returns (returned: bool)
      requires stopping.Waiting?
      modifies this
      ensures View() == Turn(old(View()), Stopper, round)
      ensures if returned then stopping.Returned? && msgChanClosed else stopping.Waiting?
      ensures old(stopChanClosed) ==> stopChanClosed
    {
      Others(Stopper, round.others);
      returned := wg == 0;
      if returned {
        msgChanClosed, stopping := true, Returned;
      }
    }

    method AwaitWorkers(world: World, rounds: nat) returns (left: nat, returned: bool)
      requires stopping.Waiting?
      modifies this
      ensures left <= rounds && (!returned ==> left == 0)
      ensures Follow(old(View()), Stopper, world, rounds) == Follow(View(), Stopper, world, left)
      ensures returned ==> stopping.Returned? && msgChanClosed
      ensures old(stopChanClosed) ==> stopChanClosed
    {
      hide Turn;
      left, returned := rounds, false;
      while !returned && left > 0
        invariant left <= rounds
        invariant Follow(old(View()), Stopper, world, rounds) == Follow(View(), Stopper, world, left)
        invariant if returned then stopping.Returned? && msgChanClosed else stopping.Waiting?
        invariant old(stopChanClosed) ==> stopChanClosed
        decreases left
      {
        left := left - 1;
        returned := TryReturn(world(left));
      }
    }

    /** Stop. In however many rounds it is given it does exactly what the machine's does in them,
        and ends early only by returning. */
    method Stop(world: World, rounds: nat) returns (left: nat, returned: bool)
      requires stopping.NotCalled?
      modifies this
      ensures left <= rounds && (!returned ==> left == 0)
      ensures Follow(old(View()), Stopper, world, rounds) == Follow(View(), Stopper, world, left)
      ensures returned ==> stopping.Returned? && msgChanClosed
      ensures rounds > 0 ==> stopChanClosed
    {
      hide Turn;
      left, returned := rounds, false;
      if left == 0 { return; }
      left := left - 1;
      CloseStopChan(world(left));
      if left == 0 { return; }
      left := left - 1;
      TakeMutex(world(left));
      var swept;
      left, swept := CloseAll(world, left);
      if !swept { return; }
      left, returned := AwaitWorkers(world, left);
    }
  }
}
