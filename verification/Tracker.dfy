/** The session machine (cmd/tracker/main.go). `World` holds the four views the
    tracker keeps in step: its local flights, its state cache, Redis and the
    database. `MessageStep` is one message, with the outcome of every external call
    given by an `Environment`; `StateTracker` is the source's object, whose
    methods are proved to do exactly that to the heap. */
module Tracker {
  import opened Wrappers
  import opened Types
  import opened Statistics
  import Parser

  /** An external call is done, refused without effect, or done but reported as failed. */
  datatype Reply = Done | Refused | Lost {
    predicate Took() { !Refused? }
  }

  datatype Validation = Valid | Invalid | Unavailable

  datatype Environment = Environment(
    validation: Validation,   // redis.GetFlightValidation
    cacheState: Reply,        // redis.StoreAircraftState
    storeState: Reply,        // db.StoreAircraftState
    fetched: bool,            // redis.GetFlight answers
    missIsZero: bool,         // ... and answers a miss with a zero flight instead of nil
    saveFlight: Reply,        // redis.StoreFlight
    createRow: Reply,         // db.CreateFlight
    dropFlight: Reply,        // redis.DeleteFlight
    dropState: Reply,         // redis.DeleteAircraftState
    closeRow: Reply,          // db.UpdateFlight
    now: Time,                // time.Now when staleness is decided
    newSession: string)       // uuid.New

  datatype Row = Row(
    hexIdent: string, callsign: string, startedAt: Time, endedAt: Option<Time>,
    firstLatitude: Float, firstLongitude: Float, lastLatitude: Float, lastLongitude: Float,
    maxAltitude: int, maxGroundSpeed: Float)

  type Rows = map<string, Row>

  datatype World = World(
    local: map<string, FlightRecord>,
    cache: map<string, StateRecord>,
    flights: map<string, FlightRecord>,
    states: map<string, StateRecord>,
    rows: Rows,
    log: seq<StateRecord>)

  datatype Outcome =
    | Unparsed | Skipped | StateNotStored | NotCreated | Created | Updated | NotEnded | Ended

  // ---- Single steps

  function Merge(existing: StateRecord, newer: StateRecord): StateRecord {
    existing.(
      callsign := if newer.callsign != "" then newer.callsign else existing.callsign,
      altitude := if newer.altitude != 0 then newer.altitude else existing.altitude,
      groundSpeed := if newer.groundSpeed != ZERO then newer.groundSpeed else existing.groundSpeed,
      track := if newer.track != ZERO then newer.track else existing.track,
      latitude := if newer.latitude != ZERO then newer.latitude else existing.latitude,
      longitude := if newer.longitude != ZERO then newer.longitude else existing.longitude,
      verticalRate := if newer.verticalRate != 0 then newer.verticalRate else existing.verticalRate,
      squawk := if newer.squawk != "" then newer.squawk else existing.squawk,
      onGround := newer.onGround,
      timestamp := newer.timestamp)
  }

  const FIVE_MINUTES: Time := 300_000_000_000

  predicate Stale(s: StateRecord, now: Time) {
    now - s.timestamp > FIVE_MINUTES
  }

  function NewFlight(s: StateRecord, session: string): FlightRecord {
    BLANK_FLIGHT.(sessionId := session, hexIdent := s.hexIdent, callsign := s.callsign,
                  startedAt := s.timestamp, firstLatitude := s.latitude, firstLongitude := s.longitude)
  }

  function Touched(f: FlightRecord, s: StateRecord): FlightRecord {
    f.(lastLatitude := s.latitude, lastLongitude := s.longitude,
       maxAltitude := if s.altitude > f.maxAltitude then s.altitude else f.maxAltitude,
       maxGroundSpeed := if s.groundSpeed.Above(f.maxGroundSpeed) then s.groundSpeed else f.maxGroundSpeed)
  }

  function RowOf(f: FlightRecord): Row {
    Row(f.hexIdent, f.callsign, f.startedAt, None, f.firstLatitude, f.firstLongitude,
        f.lastLatitude, f.lastLongitude, f.maxAltitude, f.maxGroundSpeed)
  }

  /** INSERT: the session id is the primary key. */
  function Inserted(rows: Rows, f: FlightRecord): Rows {
    if f.sessionId in rows then rows else rows[f.sessionId := RowOf(f)]
  }

  /** UPDATE ... WHERE session_id: no row, no effect, and no error either. */
  function Closed(rows: Rows, f: FlightRecord): Rows {
    if f.sessionId in rows then
      rows[f.sessionId := rows[f.sessionId].(
        callsign := f.callsign, endedAt := Some(f.endedAt),
        lastLatitude := f.lastLatitude, lastLongitude := f.lastLongitude,
        maxAltitude := f.maxAltitude, maxGroundSpeed := f.maxGroundSpeed)]
    else rows
  }

  function Fetched(w: World, hexIdent: string, env: Environment): Option<FlightRecord> {
    if !env.fetched then None
    else if hexIdent in w.flights then Some(w.flights[hexIdent])
    else if env.missIsZero then Some(BLANK_FLIGHT)
    else None
  }

  function OpenSession(w: World, s: StateRecord, env: Environment): (r: (World, Outcome))
    ensures r.1 in {Created, NotCreated}
  {
    var f := NewFlight(s, env.newSession);
    var w' := w.(local := w.local[s.hexIdent := f],
                 flights := if env.saveFlight.Took() then w.flights[s.hexIdent := f] else w.flights,
                 rows := if env.createRow.Took() then Inserted(w.rows, f) else w.rows);
    (w', if env.createRow.Done? && f.sessionId !in w.rows then Created else NotCreated)
  }

  function EndSession(w: World, f: FlightRecord, s: StateRecord, env: Environment): (r: (World, Outcome))
    ensures r.1 in {Ended, NotEnded}
  {
    var w' := w.(local := w.local - {s.hexIdent},
                 cache := w.cache - {s.hexIdent},
                 flights := if env.dropFlight.Took() then w.flights - {s.hexIdent} else w.flights,
                 states := if env.dropState.Took() then w.states - {s.hexIdent} else w.states,
                 rows := if env.closeRow.Took() then Closed(w.rows, f.(endedAt := s.timestamp)) else w.rows);
    (w', if env.closeRow.Done? then Ended else NotEnded)
  }

  /** When Redis has nothing to say the tracker works on its own record in place. */
  function FlightStep(w: World, s: StateRecord, env: Environment): (r: (World, Outcome))
    ensures r.1 in {Created, NotCreated, Updated, Ended, NotEnded}
  {
    var fetched := Fetched(w, s.hexIdent, env);
    if fetched.None? && s.hexIdent !in w.local then OpenSession(w, s, env)
    else
      var f := Touched(if fetched.Some? then fetched.value else w.local[s.hexIdent], s);
      if Stale(s, env.now) then EndSession(w, f, s, env)
      else
        (w.(local := if fetched.Some? then w.local else w.local[s.hexIdent := f],
            flights := if env.saveFlight.Took() then w.flights[f.hexIdent := f] else w.flights),
         Updated)
  }

  function CacheState(w: World, s: StateRecord, env: Environment): World {
    w.(cache := w.cache[s.hexIdent := if s.hexIdent in w.cache then Merge(w.cache[s.hexIdent], s) else s],
       states := if env.cacheState.Took() then w.states[s.hexIdent := s] else w.states,
       log := if env.storeState.Took() then w.log + [s] else w.log)
  }

  function StateStep(w: World, s: StateRecord, env: Environment): (World, Outcome) {
    if env.validation.Invalid? then (w, Skipped)
    else
      var w' := CacheState(w, s, env);
      if !env.storeState.Done? then (w', StateNotStored) else FlightStep(w', s, env)
  }

  function MessageStep(w: World, msg: Message, env: Environment, read: Parser.FloatReader): (World, Outcome) {
    match Parser.Parse(msg.raw, msg.timestamp, read)
    case Err(_) => (w, Unparsed)
    case Ok(s) => StateStep(w, s, env)
  }

  function TypeOf(msg: Message, read: Parser.FloatReader): int {
    match Parser.Parse(msg.raw, msg.timestamp, read)
    case Ok(s) => s.msgType
    case Err(_) => 0
  }

  /** What a message does to the counters, by its outcome. */
  function Counted(c: Counters, msgType: int, outcome: Outcome, aircraft: nat, flights: nat): Counters {
    var c' := c.(totalMessages := Up(c.totalMessages));
    if outcome.Unparsed? then c'.(failedMessages := Up(c.failedMessages))
    else CountedState(c', msgType, outcome, aircraft, flights)
  }

  function CountedState(c: Counters, msgType: int, outcome: Outcome, aircraft: nat, flights: nat): Counters {
    var c' := c.(parsedMessages := Up(c.parsedMessages),
                 messageTypeCounts := UpAt(c.messageTypeCounts, msgType));
    if outcome.Skipped? || outcome.StateNotStored? then c'
    else CountedStored(c', outcome, aircraft, flights)
  }

  function CountedStored(c: Counters, outcome: Outcome, aircraft: nat, flights: nat): Counters {
    var c' := CountedSession(c.(storedStates := Up(c.storedStates)), outcome);
    if outcome.NotCreated? || outcome.NotEnded? then c'
    else c'.(activeAircraft := aircraft % WRAP, activeFlights := flights % WRAP)
  }

  function CountedSession(c: Counters, outcome: Outcome): Counters {
    match outcome
    case Created => c.(createdFlights := Up(c.createdFlights))
    case Updated => c.(updatedFlights := Up(c.updatedFlights))
    case Ended => c.(endedFlights := Up(c.endedFlights))
    case _ => c
  }

  /** Start: rows are loaded one by one, each cached in Redis as far as Redis answers. */
  function Loaded(w: World, listing: seq<FlightRecord>, saves: nat -> Reply): World {
    if listing == [] then w.(local := map[], cache := map[])
    else
      var n := |listing| - 1;
      var before := Loaded(w, listing[..n], saves);
      var f := listing[n];
      before.(local := before.local[f.hexIdent := f],
              flights := if saves(n).Took() then before.flights[f.hexIdent := f] else before.flights)
  }

  // ---- The stores behind the interfaces

  class Redis {
    var flights: map<string, FlightRecord>
    var states: map<string, StateRecord>

    method StoreFlight(flight: FlightRecord, reply: Reply)
      modifies `flights
      ensures flights == if reply.Took() then old(flights)[flight.hexIdent := flight] else old(flights)
    {
      if reply.Took() { flights := flights[flight.hexIdent := flight]; }
    }

    /** Answers with a decoded copy: writing to it changes nothing here. */
    method GetFlight(hexIdent: string, env: Environment) returns (flight: Option<FlightRecord>)
      ensures flight == if !env.fetched then None
                        else if hexIdent in flights then Some(flights[hexIdent])
                        else if env.missIsZero then Some(BLANK_FLIGHT) else None
    {
      if !env.fetched { return None; }
      if hexIdent in flights { return Some(flights[hexIdent]); }
      return if env.missIsZero then Some(BLANK_FLIGHT) else None;
    }

    method DeleteFlight(hexIdent: string, reply: Reply)
      modifies `flights
      ensures flights == if reply.Took() then old(flights) - {hexIdent} else old(flights)
    {
      if reply.Took() { flights := flights - {hexIdent}; }
    }

    method StoreAircraftState(state: StateRecord, reply: Reply)
      modifies `states
      ensures states == if reply.Took() then old(states)[state.hexIdent := state] else old(states)
    {
      if reply.Took() { states := states[state.hexIdent := state]; }
    }

    method DeleteAircraftState(hexIdent: string, reply: Reply)
      modifies `states
      ensures states == if reply.Took() then old(states) - {hexIdent} else old(states)
    {
      if reply.Took() { states := states - {hexIdent}; }
    }
  }

  class Database {
    var rows: Rows
    var log: seq<StateRecord>

    method StoreAircraftState(state: StateRecord, reply: Reply) returns (ok: bool)
      modifies `log
      ensures log == if reply.Took() then old(log) + [state] else old(log)
      ensures ok == reply.Done?
    {
      if reply.Took() { log := log + [state]; }
      ok := reply.Done?;
    }

    method CreateFlight(flight: FlightRecord, reply: Reply) returns (ok: bool)
      modifies `rows
      ensures rows == if reply.Took() then Inserted(old(rows), flight) else old(rows)
      ensures ok == (reply.Done? && flight.sessionId !in old(rows))
    {
      ok := reply.Done? && flight.sessionId !in rows;
      if reply.Took() { rows := Inserted(rows, flight); }
    }

    method UpdateFlight(flight: FlightRecord, reply: Reply) returns (ok: bool)
      modifies `rows
      ensures rows == if reply.Took() then Closed(old(rows), flight) else old(rows)
      ensures ok == reply.Done?
    {
      if reply.Took() { rows := Closed(rows, flight); }
      ok := reply.Done?;
    }
  }

  // ---- The tracker object

  class StateTracker {
    const db: Database
    const redis: Redis
    const stats: Stats
    const read: Parser.FloatReader
    var activeFlights: map<string, FlightRecord>
    var states: map<string, StateRecord>

    function View(): World
      reads this, db, redis
    {
      World(activeFlights, states, redis.flights, redis.states, db.rows, db.log)
    }

    constructor (db: Database, redis: Redis, read: Parser.FloatReader)
      ensures fresh(stats) && this.db == db && this.redis == redis && this.read == read
      ensures View() == World(map[], map[], redis.flights, redis.states, db.rows, db.log)
      ensures stats.Counts() == NO_COUNTS
    {
      this.db, this.redis, this.read := db, redis, read;
      activeFlights, states := map[], map[];
      stats := new Stats();
    }

    method Start(flights: seq<FlightRecord>, saves: nat -> Reply)
      requires activeFlights == map[] && states == map[]
      modifies this, redis
      ensures View() == Loaded(old(View()), flights, saves)
    {
      ghost var before := View();
      for n := 0 to |flights|
        invariant View() == Loaded(before, flights[..n], saves)
      {
        activeFlights := activeFlights[flights[n].hexIdent := flights[n]];
        redis.StoreFlight(flights[n], saves(n));
        assert flights[..n + 1][..n] == flights[..n];
      }
      assert flights[..|flights|] == flights;
    }

    method MergeStates(hexIdent: string, newState: StateRecord)
      requires hexIdent in states
      modifies `states
      ensures states == old(states)[hexIdent := Merge(old(states)[hexIdent], newState)]
    {
      var existing := states[hexIdent];
      var merged := existing;
      if newState.callsign != "" { merged := merged.(callsign := newState.callsign); }
      merged := MergeMotion(merged, newState);
      merged := MergePosition(merged, newState);
      if newState.squawk != "" { merged := merged.(squawk := newState.squawk); }
      merged := merged.(onGround := newState.onGround, timestamp := newState.timestamp);
      assert merged == Merge(existing, newState);
      states := states[hexIdent := merged];
    }

    // The middle stretches of mergeStates.
    method MergeMotion(existing: StateRecord, newState: StateRecord) returns (merged: StateRecord)
      ensures var m := Merge(existing, newState);
              merged == existing.(altitude := m.altitude, groundSpeed := m.groundSpeed, track := m.track)
    {
      merged := existing;
      if newState.altitude != 0 { merged := merged.(altitude := newState.altitude); }
      if newState.groundSpeed != ZERO { merged := merged.(groundSpeed := newState.groundSpeed); }
      if newState.track != ZERO { merged := merged.(track := newState.track); }
    }

    method MergePosition(existing: StateRecord, newState: StateRecord) returns (merged: StateRecord)
      ensures var m := Merge(existing, newState);
              merged == existing.(latitude := m.latitude, longitude := m.longitude, verticalRate := m.verticalRate)
    {
      merged := existing;
      if newState.latitude != ZERO { merged := merged.(latitude := newState.latitude); }
      if newState.longitude != ZERO { merged := merged.(longitude := newState.longitude); }
      if newState.verticalRate != 0 { merged := merged.(verticalRate := newState.verticalRate); }
    }

    method UpdateFlight(state: StateRecord, env: Environment) returns (outcome: Outcome)
      modifies this, redis, db, stats
      ensures (View(), outcome) == FlightStep(old(View()), state, env)
      ensures outcome in {Created, NotCreated, Updated, Ended, NotEnded}
      ensures stats.Counts() == CountedSession(old(stats.Counts()), outcome)
    {
      var flight := redis.GetFlight(state.hexIdent, env);
      var shared := flight.None?;  // the record is the tracker's own, not a copy
      if flight.None? && state.hexIdent in activeFlights {
        flight := Some(activeFlights[state.hexIdent]);
      }
      if flight.None? {
        outcome := CreateSession(state, env);
      } else {
        var touched := Touch(flight.value, state);
        if shared { activeFlights := activeFlights[state.hexIdent := touched]; }
        if env.now - state.timestamp > FIVE_MINUTES {
          assert activeFlights - {state.hexIdent} == old(activeFlights) - {state.hexIdent};
          outcome := CloseSession(touched, state, env);
        } else {
          redis.StoreFlight(touched, env.saveFlight);
          stats.IncrementUpdatedFlights();
          outcome := Updated;
        }
      }
    }

    method CreateSession(state: StateRecord, env: Environment) returns (outcome: Outcome)
      modifies `activeFlights, redis, db, stats
      ensures (View(), outcome) == OpenSession(old(View()), state, env)
      ensures stats.Counts() == CountedSession(old(stats.Counts()), outcome)
    {
      var flight := NewFlight(state, env.newSession);
      activeFlights := activeFlights[state.hexIdent := flight];
      redis.StoreFlight(flight, env.saveFlight);
      var ok := db.CreateFlight(flight, env.createRow);
      if !ok { return NotCreated; }
      stats.IncrementCreatedFlights();
      return Created;
    }

    method Touch(flight: FlightRecord, state: StateRecord) returns (touched: FlightRecord)
      ensures touched == Touched(flight, state)
    {
      touched := flight.(lastLatitude := state.latitude, lastLongitude := state.longitude);
      if state.altitude > touched.maxAltitude { touched := touched.(maxAltitude := state.altitude); }
      if state.groundSpeed.Above(touched.maxGroundSpeed) { touched := touched.(maxGroundSpeed := state.groundSpeed); }
    }

    method CloseSession(touched: FlightRecord, state: StateRecord, env: Environment) returns (outcome: Outcome)
      modifies this, redis, db, stats
      ensures (View(), outcome) == EndSession(old(View()), touched, state, env)
      ensures stats.Counts() == CountedSession(old(stats.Counts()), outcome)
    {
      var flight := touched.(endedAt := state.timestamp);
      activeFlights := activeFlights - {state.hexIdent};
      states := states - {state.hexIdent};
      redis.DeleteFlight(state.hexIdent, env.dropFlight);
      redis.DeleteAircraftState(state.hexIdent, env.dropState);
      var ok := db.UpdateFlight(flight, env.closeRow);
      if !ok { return NotEnded; }
      stats.IncrementEndedFlights();
      return Ended;
    }

    method ProcessMessage(msg: Message, env: Environment) returns (outcome: Outcome)
      modifies this, redis, db, stats
      ensures (View(), outcome) == MessageStep(old(View()), msg, env, read)
      ensures stats.Counts()
           == Counted(old(stats.Counts()), TypeOf(msg, read), outcome, |states|, |activeFlights|)
    {
      stats.IncrementTotalMessages();
      var parsed := Parser.ParseMessage(msg.raw, msg.timestamp, read);
      if parsed.Err? {
        stats.IncrementFailedMessages();
        return Unparsed;
      }
      outcome := ProcessState(parsed.value.Value(), env);
    }

    // ProcessMessage from the parsed state on.
    method ProcessState(state: StateRecord, env: Environment) returns (outcome: Outcome)
      modifies this, redis, db, stats
      ensures (View(), outcome) == StateStep(old(View()), state, env)
      ensures !outcome.Unparsed?
      ensures stats.Counts()
           == CountedState(old(stats.Counts()), state.msgType, outcome, |states|, |activeFlights|)
    {
      stats.IncrementParsedMessages();
      stats.IncrementMessageType(state.msgType);
      if env.validation.Invalid? { return Skipped; }
      var ok := RecordState(state, env);
      if !ok { return StateNotStored; }
      stats.IncrementStoredStates();
      outcome := UpdateFlight(state, env);
      if outcome.NotCreated? || outcome.NotEnded? { return; }
      stats.SetActive(|states|, |activeFlights|);
    }

    // The stretch of ProcessMessage that caches and stores the state.
    method RecordState(state: StateRecord, env: Environment) returns (ok: bool)
      modifies `states, redis, db
      ensures View() == CacheState(old(View()), state, env)
      ensures ok == env.storeState.Done?
    {
      if state.hexIdent !in states {
        states := states[state.hexIdent := state];
      } else {
        MergeStates(state.hexIdent, state);
      }
      redis.StoreAircraftState(state, env.cacheState);
      ok := db.StoreAircraftState(state, env.storeState);
    }
  }
}
