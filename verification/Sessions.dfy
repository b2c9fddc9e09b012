/** What the tracker promises over whole runs (cmd/tracker/main.go). A run is any
    sequence of messages and restarts. In healthy runs the four views stay in step,
    and seen from one aircraft the tracker is a small automaton that hears nothing
    but that aircraft's own messages. */
module Sessions {
  import opened Wrappers
  import opened Types
  import opened Tracker
  import Parser

  datatype Event =
    | Heard(msg: Message, env: Environment)
    | Restarted(listing: seq<FlightRecord>, saves: nat -> Reply)

  type Reader = Parser.FloatReader

  function EventStep(w: World, e: Event, read: Reader): World {
    match e
    case Heard(msg, env) => MessageStep(w, msg, env, read).0
    case Restarted(listing, saves) => Loaded(w, listing, saves)
  }

  function Run(w: World, events: seq<Event>, read: Reader): World {
    if events == [] then w
    else EventStep(Run(w, events[..|events| - 1], read), events[|events| - 1], read)
  }

  // ---- One aircraft

  datatype Session = Session(local: FlightRecord, remote: FlightRecord)

  datatype Aircraft = Aircraft(open: Option<Session>, cached: Option<StateRecord>, rows: Rows)

  datatype Signal = Report(state: StateRecord, now: Time, newSession: string) | Reboot

  /** Idle opens on any report, open stays open on a fresh one and closes on a stale one;
      the remote copy follows the reports while the local copy keeps its first value. */
  function AircraftStep(a: Aircraft, signal: Signal): Aircraft {
    match (signal, a.open)
    case (Report(s, _, id), None) =>
      var f := NewFlight(s, id);
      Aircraft(Some(Session(f, f)), Some(MergeInto(a.cached, s)), a.rows[id := RowOf(f)])
    case (Report(s, now, _), Some(session)) =>
      var f := Touched(session.remote, s);
      if Stale(s, now) then Aircraft(None, None, Closed(a.rows, f.(endedAt := s.timestamp)))
      else Aircraft(Some(Session(session.local, f)), Some(MergeInto(a.cached, s)), a.rows)
    case (Reboot, None) => a.(cached := None)
    case (Reboot, Some(session)) =>
      var id := session.local.sessionId;
      if id in a.rows then
        var f := Reloaded(id, a.rows[id]);
        Aircraft(Some(Session(f, f)), None, a.rows)
      else a
  }

  function MergeInto(cached: Option<StateRecord>, s: StateRecord): StateRecord {
    match cached case None => s case Some(c) => Merge(c, s)
  }

  function AircraftRun(a: Aircraft, signals: seq<Signal>): Aircraft {
    if signals == [] then a
    else AircraftStep(AircraftRun(a, signals[..|signals| - 1]), signals[|signals| - 1])
  }

  /** A row as GetActiveFlights hands it to Start. */
  function Reloaded(id: string, r: Row): FlightRecord {
    FlightRecord(id, r.hexIdent, r.callsign, r.startedAt, NO_TIME, r.firstLatitude, r.firstLongitude,
                 r.lastLatitude, r.lastLongitude, r.maxAltitude, r.maxGroundSpeed)
  }

  // ---- Projection of the whole tracker onto one aircraft

  function Project(w: World, h: string): Aircraft {
    Aircraft(
      if h in w.local && h in w.flights then Some(Session(w.local[h], w.flights[h])) else None,
      if h in w.cache then Some(w.cache[h]) else None,
      RowsOf(w.rows, h))
  }

  function RowsOf(rows: Rows, h: string): Rows {
    map id | id in rows && rows[id].hexIdent == h :: rows[id]
  }

  /** The state a message contributes, unless it is unreadable or its flight is invalid. */
  function Accepted(e: Event, read: Reader): Option<StateRecord> {
    if e.Restarted? || e.env.validation.Invalid? then None
    else
      match Parser.Parse(e.msg.raw, e.msg.timestamp, read)
      case Ok(s) => Some(s)
      case Err(_) => None
  }

  function SignalFor(e: Event, h: string, read: Reader): Option<Signal> {
    if e.Restarted? then Some(Reboot)
    else
      match Accepted(e, read)
      case Some(s) => if s.hexIdent == h then Some(Report(s, e.env.now, e.env.newSession)) else None
      case None => None
  }

  function Signals(events: seq<Event>, h: string, read: Reader): seq<Signal> {
    if events == [] then []
    else
      var before := Signals(events[..|events| - 1], h, read);
      match SignalFor(events[|events| - 1], h, read)
      case Some(signal) => before + [signal]
      case None => before
  }

  // ---- Healthy runs

  predicate FaultFree(env: Environment) {
    && env.cacheState.Done? && env.storeState.Done? && env.fetched && !env.missIsZero
    && env.saveFlight.Done? && env.createRow.Done? && env.dropFlight.Done? && env.dropState.Done?
    && env.closeRow.Done?
  }

  ghost predicate IsOpen(rows: Rows, id: string) {
    id in rows && rows[id].endedAt.None?
  }

  /** `listing` is what SELECT ... WHERE ended_at IS NULL returns, in any order. */
  ghost predicate Lists(listing: seq<FlightRecord>, rows: Rows) {
    && (forall f :: f in listing ==> IsOpen(rows, f.sessionId) && f == Reloaded(f.sessionId, rows[f.sessionId]))
    && (forall id :: IsOpen(rows, id) ==> Reloaded(id, rows[id]) in listing)
  }

  ghost predicate Healthy(w: World, e: Event) {
    match e
    case Heard(_, env) => FaultFree(env) && env.newSession !in w.rows
    case Restarted(listing, saves) => Lists(listing, w.rows) && forall n :: 0 <= n < |listing| ==> saves(n).Done?
  }

  ghost predicate HealthyRun(w: World, events: seq<Event>, read: Reader) {
    forall n :: 0 <= n < |events| ==> Healthy(Run(w, events[..n], read), events[n])
  }

  // ---- The invariant of healthy runs

  predicate SameSession(f: FlightRecord, g: FlightRecord) {
    && f.sessionId == g.sessionId && f.hexIdent == g.hexIdent && f.callsign == g.callsign
    && f.startedAt == g.startedAt && f.firstLatitude == g.firstLatitude && f.firstLongitude == g.firstLongitude
  }

  predicate AtMost(f: FlightRecord, g: FlightRecord) {
    f.maxAltitude <= g.maxAltitude && !f.maxGroundSpeed.Above(g.maxGroundSpeed)
  }

  /** The local flight, the Redis flight and the database row of one open session. */
  ghost predicate InStep(w: World, h: string)
    requires h in w.local && h in w.flights
  {
    var f := w.local[h];
    && f.hexIdent == h && SameSession(f, w.flights[h]) && AtMost(f, w.flights[h])
    && IsOpen(w.rows, f.sessionId) && SameSession(Reloaded(f.sessionId, w.rows[f.sessionId]), f)
  }

  ghost predicate Linked(w: World) {
    && w.local.Keys == w.flights.Keys
    && (forall h :: h in w.local ==> InStep(w, h))
    && (forall id :: IsOpen(w.rows, id) ==>
          w.rows[id].hexIdent in w.local && w.local[w.rows[id].hexIdent].sessionId == id)
  }

  ghost predicate Consistent(w: World) {
    Linked(w) && w.cache.Keys <= w.local.Keys
  }

  // ---- One message keeps the views linked and moves one aircraft

  lemma OpenLinked(w: World, s: StateRecord, env: Environment)
    requires Linked(w) && env.newSession !in w.rows && s.hexIdent !in w.local
    requires env.saveFlight.Took() && env.createRow.Took()
    ensures Linked(OpenSession(w, s, env).0)
  {
    var w' := OpenSession(w, s, env).0;
    forall h | h in w'.local ensures InStep(w', h) {
      OpenInStep(w, s, env, h);
    }
    forall id | IsOpen(w'.rows, id)
      ensures w'.rows[id].hexIdent in w'.local && w'.local[w'.rows[id].hexIdent].sessionId == id
    {
      OpenNamed(w, s, env, id);
    }
  }

  lemma OpenNamed(w: World, s: StateRecord, env: Environment, id: string)
    requires Linked(w) && env.newSession !in w.rows && s.hexIdent !in w.local
    requires env.saveFlight.Took() && env.createRow.Took()
    requires IsOpen(OpenSession(w, s, env).0.rows, id)
    ensures var w' := OpenSession(w, s, env).0;
            w'.rows[id].hexIdent in w'.local && w'.local[w'.rows[id].hexIdent].sessionId == id
  {
    if id != env.newSession {
      assert IsOpen(w.rows, id);
    }
  }

  lemma OpenInStep(w: World, s: StateRecord, env: Environment, h: string)
    requires Linked(w) && env.newSession !in w.rows && s.hexIdent !in w.local
    requires env.saveFlight.Took() && env.createRow.Took()
    requires h in w.local || h == s.hexIdent
    ensures var w' := OpenSession(w, s, env).0;
            h in w'.local && h in w'.flights && InStep(w', h)
  {
    if h != s.hexIdent {
      assert InStep(w, h);
      hide Linked;
      InStepKept(w, OpenSession(w, s, env).0, h);
    } else {
      hide Linked;
    }
  }

  /** A flight stays in step while its own three records stay. */
  lemma InStepKept(w: World, w': World, h: string)
    requires h in w.local && h in w.flights && InStep(w, h)
    requires h in w'.local && h in w'.flights && w'.local[h] == w.local[h] && w'.flights[h] == w.flights[h]
    requires w.local[h].sessionId in w'.rows && w'.rows[w.local[h].sessionId] == w.rows[w.local[h].sessionId]
    ensures InStep(w', h)
  {
  }

  lemma UpdateLinked(w: World, s: StateRecord, env: Environment)
    requires Linked(w) && FaultFree(env) && s.hexIdent in w.local && !Stale(s, env.now)
    ensures var w' := FlightStep(w, s, env).0;
            && FlightStep(w, s, env).1 == Updated && Linked(w')
            && w' == w.(flights := w.flights[s.hexIdent := Touched(w.flights[s.hexIdent], s)])
  {
    var w' := FlightStep(w, s, env).0;
    assert InStep(w, s.hexIdent);
    assert w'.flights == w.flights[s.hexIdent := Touched(w.flights[s.hexIdent], s)];
    forall h | h in w'.local ensures InStep(w', h) {
      assert InStep(w, h);
    }
    forall id | IsOpen(w'.rows, id) ensures w'.rows[id].hexIdent in w'.local {
      assert IsOpen(w.rows, id);
    }
  }

  lemma EndLinked(w: World, f: FlightRecord, s: StateRecord, env: Environment)
    requires Linked(w) && s.hexIdent in w.local && f.sessionId == w.local[s.hexIdent].sessionId
    requires env.dropFlight.Took() && env.closeRow.Took()
    ensures Linked(EndSession(w, f, s, env).0)
  {
    var w' := EndSession(w, f, s, env).0;
    assert InStep(w, s.hexIdent);
    var id := w.local[s.hexIdent].sessionId;
    forall h | h in w'.local ensures InStep(w', h) {
      assert InStep(w, h);
    }
    forall other | IsOpen(w'.rows, other)
      ensures w'.rows[other].hexIdent in w'.local && w'.local[w'.rows[other].hexIdent].sessionId == other
    {
      assert other != id;
      assert IsOpen(w.rows, other);
    }
  }

  lemma CacheLinked(w: World, s: StateRecord, env: Environment)
    requires Linked(w)
    ensures Linked(CacheState(w, s, env))
  {
    var w' := CacheState(w, s, env);
    forall h | h in w'.local ensures InStep(w', h) {
      assert InStep(w, h);
    }
  }

  lemma StateStepConsistent(w: World, s: StateRecord, env: Environment)
    requires Consistent(w) && FaultFree(env) && env.newSession !in w.rows
    ensures Consistent(StateStep(w, s, env).0)
  {
    if !env.validation.Invalid? {
      var w' := CacheState(w, s, env);
      CacheLinked(w, s, env);
      if s.hexIdent !in w.local {
        OpenLinked(w', s, env);
      } else if Stale(s, env.now) {
        assert InStep(w, s.hexIdent);
        EndLinked(w', Touched(w.flights[s.hexIdent], s), s, env);
      } else {
        UpdateLinked(w', s, env);
      }
    }
  }

  /** Seen from `h`, a report about `h` is one automaton step and any other is nothing. */
  lemma StateStepProjects(w: World, s: StateRecord, env: Environment, h: string)
    requires Consistent(w) && FaultFree(env) && env.newSession !in w.rows && !env.validation.Invalid?
    ensures Project(StateStep(w, s, env).0, h)
         == if h == s.hexIdent then AircraftStep(Project(w, h), Report(s, env.now, env.newSession))
            else Project(w, h)
  {
    var w' := CacheState(w, s, env);
    CacheLinked(w, s, env);
    if s.hexIdent !in w.local {
      OpenProjects(w, s, env, h);
    } else if Stale(s, env.now) {
      EndProjects(w, s, env, h);
    } else {
      UpdateProjects(w, s, env, h);
    }
  }

  lemma OpenProjects(w: World, s: StateRecord, env: Environment, h: string)
    requires Consistent(w) && FaultFree(env) && env.newSession !in w.rows && s.hexIdent !in w.local
    ensures Project(OpenSession(CacheState(w, s, env), s, env).0, h)
         == if h == s.hexIdent then AircraftStep(Project(w, h), Report(s, env.now, env.newSession))
            else Project(w, h)
  {
    var f := NewFlight(s, env.newSession);
    RowsInserted(w.rows, f, h);
    assert OpenSession(CacheState(w, s, env), s, env).0.rows == Inserted(w.rows, f);
    assert h !in w.local ==> h !in w.cache;
  }

  lemma RowsInserted(rows: Rows, f: FlightRecord, h: string)
    requires f.sessionId !in rows
    ensures RowsOf(Inserted(rows, f), h)
         == if h == f.hexIdent then RowsOf(rows, h)[f.sessionId := RowOf(f)] else RowsOf(rows, h)
  {
  }

  lemma RowsClosed(rows: Rows, f: FlightRecord, h: string)
    requires f.sessionId in rows && rows[f.sessionId].hexIdent == f.hexIdent
    ensures RowsOf(Closed(rows, f), h) == if h == f.hexIdent then Closed(RowsOf(rows, h), f) else RowsOf(rows, h)
  {
  }

  lemma UpdateProjects(w: World, s: StateRecord, env: Environment, h: string)
    requires Consistent(w) && FaultFree(env) && s.hexIdent in w.local && !Stale(s, env.now)
    ensures Project(FlightStep(CacheState(w, s, env), s, env).0, h)
         == if h == s.hexIdent then AircraftStep(Project(w, h), Report(s, env.now, env.newSession))
            else Project(w, h)
  {
    CacheLinked(w, s, env);
    UpdateLinked(CacheState(w, s, env), s, env);
    UpdatedProjects(w, s, env, h, FlightStep(CacheState(w, s, env), s, env).0);
  }

  lemma UpdatedProjects(w: World, s: StateRecord, env: Environment, h: string, w': World)
    requires Consistent(w) && s.hexIdent in w.local && !Stale(s, env.now)
    requires w'.local == w.local && w'.rows == w.rows
    requires w'.flights == w.flights[s.hexIdent := Touched(w.flights[s.hexIdent], s)]
    requires w'.cache == w.cache[s.hexIdent := if s.hexIdent in w.cache then Merge(w.cache[s.hexIdent], s) else s]
    ensures Project(w', h)
         == if h == s.hexIdent then AircraftStep(Project(w, h), Report(s, env.now, env.newSession))
            else Project(w, h)
  {
  }

  lemma EndProjects(w: World, s: StateRecord, env: Environment, h: string)
    requires Consistent(w) && FaultFree(env) && s.hexIdent in w.local && Stale(s, env.now)
    ensures Project(FlightStep(CacheState(w, s, env), s, env).0, h)
         == if h == s.hexIdent then AircraftStep(Project(w, h), Report(s, env.now, env.newSession))
            else Project(w, h)
  {
    assert InStep(w, s.hexIdent);
    RowsClosed(w.rows, Touched(w.flights[s.hexIdent], s).(endedAt := s.timestamp), h);
  }

  // ---- Restarting

  /** At most one open row per aircraft. */
  ghost predicate OneOpenEach(rows: Rows) {
    forall i, j :: IsOpen(rows, i) && IsOpen(rows, j) && rows[i].hexIdent == rows[j].hexIdent ==> i == j
  }

  ghost predicate HasOpen(rows: Rows, h: string) {
    exists id :: IsOpen(rows, id) && rows[id].hexIdent == h
  }

  lemma {:induction false} LoadedLeaves(w: World, listing: seq<FlightRecord>, saves: nat -> Reply)
    ensures var w' := Loaded(w, listing, saves);
            w'.cache == map[] && w'.rows == w.rows && w'.states == w.states && w'.log == w.log
  {
    if listing == [] {
    } else {
      LoadedLeaves(w, listing[..|listing| - 1], saves);
    }
  }

  ghost predicate Lone(listing: seq<FlightRecord>) {
    forall f, g :: f in listing && g in listing && f.hexIdent == g.hexIdent ==> f == g
  }

  lemma {:induction false} LoadedLocal(w: World, listing: seq<FlightRecord>, saves: nat -> Reply)
    requires Lone(listing)
    ensures var w' := Loaded(w, listing, saves);
            && (forall f :: f in listing ==> f.hexIdent in w'.local && w'.local[f.hexIdent] == f)
            && (forall h :: h in w'.local ==> w'.local[h] in listing && w'.local[h].hexIdent == h)
  {
    if listing == [] {
    } else {
      var last := listing[|listing| - 1];
      var front := listing[..|listing| - 1];
      assert forall f :: f in listing <==> f in front || f == last;
      LoadedLocal(w, front, saves);
    }
  }

  /** Redis then holds the loaded flights, and whatever it held for other aircraft. */
  lemma {:induction false} LoadedFlights(w: World, listing: seq<FlightRecord>, saves: nat -> Reply)
    requires forall n :: 0 <= n < |listing| ==> saves(n).Took()
    ensures var w' := Loaded(w, listing, saves);
            && w'.flights.Keys == w.flights.Keys + w'.local.Keys
            && forall h :: h in w'.local ==> w'.flights[h] == w'.local[h]
  {
    if listing == [] {
    } else {
      LoadedFlights(w, listing[..|listing| - 1], saves);
    }
  }

  lemma ListingLone(listing: seq<FlightRecord>, rows: Rows)
    requires OneOpenEach(rows) && Lists(listing, rows)
    ensures Lone(listing)
  {
    forall f, g | f in listing && g in listing && f.hexIdent == g.hexIdent ensures f == g {
      assert IsOpen(rows, f.sessionId) && IsOpen(rows, g.sessionId);
      assert rows[f.sessionId].hexIdent == f.hexIdent;
      assert rows[g.sessionId].hexIdent == g.hexIdent;
    }
  }

  /** Start establishes the invariant from any database with at most one open row per
      aircraft, whatever the previous process left in memory, as long as Redis holds no
      flight beyond those rows. */
  lemma StartConsistent(w: World, listing: seq<FlightRecord>, saves: nat -> Reply)
    requires OneOpenEach(w.rows) && forall h :: h in w.flights ==> HasOpen(w.rows, h)
    requires Lists(listing, w.rows) && forall n :: 0 <= n < |listing| ==> saves(n).Took()
    ensures Consistent(Loaded(w, listing, saves))
  {
    ListingLone(listing, w.rows);
    LoadedLeaves(w, listing, saves);
    LoadedLocal(w, listing, saves);
    LoadedFlights(w, listing, saves);
    ReloadLinked(w, Loaded(w, listing, saves), listing);
  }

  /** `w'` is what loading `listing` made of `w`. */
  ghost predicate Reload(w: World, w': World, listing: seq<FlightRecord>) {
    && w'.cache == map[] && w'.rows == w.rows
    && (forall f :: f in listing ==> f.hexIdent in w'.local && w'.local[f.hexIdent] == f)
    && (forall h :: h in w'.local ==> w'.local[h] in listing && w'.local[h].hexIdent == h)
    && w'.flights.Keys == w.flights.Keys + w'.local.Keys
    && forall h :: h in w'.local ==> w'.flights[h] == w'.local[h]
  }

  lemma ReloadLinked(w: World, w': World, listing: seq<FlightRecord>)
    requires Reload(w, w', listing) && Lists(listing, w.rows)
    requires forall h :: h in w.flights ==> HasOpen(w.rows, h)
    ensures Consistent(w')
  {
    forall id | IsOpen(w'.rows, id)
      ensures w'.rows[id].hexIdent in w'.local && w'.local[w'.rows[id].hexIdent].sessionId == id
    {
      assert Reloaded(id, w.rows[id]) in listing;
    }
    forall h | h in w'.flights ensures h in w'.local {
      ReloadCovers(w, w', listing, h);
    }
    forall h | h in w'.local ensures InStep(w', h) {
      ReloadInStep(w, w', listing, h);
    }
  }

  lemma ReloadCovers(w: World, w': World, listing: seq<FlightRecord>, h: string)
    requires Reload(w, w', listing) && Lists(listing, w.rows) && h in w'.flights
    requires forall h :: h in w.flights ==> HasOpen(w.rows, h)
    ensures h in w'.local
  {
    if h in w.flights {
      var id :| IsOpen(w.rows, id) && w.rows[id].hexIdent == h;
      assert Reloaded(id, w.rows[id]) in listing;
    }
  }

  lemma ReloadInStep(w: World, w': World, listing: seq<FlightRecord>, h: string)
    requires Reload(w, w', listing) && Lists(listing, w.rows) && h in w'.local
    ensures InStep(w', h)
  {
    var f := w'.local[h];
    assert f in listing && w'.flights[h] == f;
    assert IsOpen(w.rows, f.sessionId) && f == Reloaded(f.sessionId, w.rows[f.sessionId]);
  }

  lemma ConsistentRows(w: World)
    requires Consistent(w)
    ensures OneOpenEach(w.rows)
    ensures forall h :: h in w.local <==> HasOpen(w.rows, h)
  {
    forall h | h in w.local ensures HasOpen(w.rows, h) {
      assert InStep(w, h);
      assert IsOpen(w.rows, w.local[h].sessionId) && w.rows[w.local[h].sessionId].hexIdent == h;
    }
  }

  /** The condition is exact: Start leaves the views linked if and only if it holds. */
  lemma StartConsistentExactly(w: World, listing: seq<FlightRecord>, saves: nat -> Reply)
    requires Lists(listing, w.rows) && forall n :: 0 <= n < |listing| ==> saves(n).Took()
    ensures Consistent(Loaded(w, listing, saves))
       <==> OneOpenEach(w.rows) && forall h :: h in w.flights ==> HasOpen(w.rows, h)
  {
    var w' := Loaded(w, listing, saves);
    if OneOpenEach(w.rows) && forall h :: h in w.flights ==> HasOpen(w.rows, h) {
      StartConsistent(w, listing, saves);
    }
    if Consistent(w') {
      ConsistentRows(w');
      LoadedLeaves(w, listing, saves);
      LoadedFlights(w, listing, saves);
      assert forall h :: h in w.flights ==> h in w'.flights;
    }
  }

  /** After a restart an aircraft is active exactly when it was, with the record its row gives. */
  lemma RestartReloads(w: World, listing: seq<FlightRecord>, saves: nat -> Reply, h: string)
    requires Consistent(w) && Lists(listing, w.rows)
    ensures var w' := Loaded(w, listing, saves);
            && (h in w'.local <==> h in w.local)
            && (h in w.local ==>
                  (var id := w.local[h].sessionId; IsOpen(w.rows, id) && w'.local[h] == Reloaded(id, w.rows[id])))
  {
    ConsistentRows(w);
    ListingLone(listing, w.rows);
    LoadedLocal(w, listing, saves);
    if h in w.local {
      assert InStep(w, h);
      var id := w.local[h].sessionId;
      assert Reloaded(id, w.rows[id]) in listing;
    } else if h in Loaded(w, listing, saves).local {
      assert IsOpen(w.rows, Loaded(w, listing, saves).local[h].sessionId);
      assert HasOpen(w.rows, h);
    }
  }

  lemma RestartProjects(w: World, listing: seq<FlightRecord>, saves: nat -> Reply, h: string)
    requires Consistent(w) && Healthy(w, Restarted(listing, saves))
    ensures Project(Loaded(w, listing, saves), h) == AircraftStep(Project(w, h), Reboot)
  {
    RestartReloads(w, listing, saves, h);
    LoadedLeaves(w, listing, saves);
    LoadedFlights(w, listing, saves);
    if h in w.local {
      assert InStep(w, h);
      assert w.local[h].sessionId in RowsOf(w.rows, h);
    }
  }

  // ---- Whole runs

  lemma EventConsistent(w: World, e: Event, read: Reader)
    requires Consistent(w) && Healthy(w, e)
    ensures Consistent(EventStep(w, e, read))
  {
    match e
    case Heard(msg, env) =>
      match Parser.Parse(msg.raw, msg.timestamp, read) {
        case Ok(s) => StateStepConsistent(w, s, env);
        case Err(_) =>
      }
    case Restarted(listing, saves) =>
      ConsistentRows(w);
      StartConsistent(w, listing, saves);
  }

  lemma EventProjects(w: World, e: Event, h: string, read: Reader)
    requires Consistent(w) && Healthy(w, e)
    ensures Project(EventStep(w, e, read), h)
         == match SignalFor(e, h, read)
            case Some(signal) => AircraftStep(Project(w, h), signal)
            case None => Project(w, h)
  {
    match e
    case Heard(msg, env) =>
      var parsed := Parser.Parse(msg.raw, msg.timestamp, read);
      if parsed.Ok? && !env.validation.Invalid? {
        StateStepProjects(w, parsed.value, env, h);
      }
    case Restarted(listing, saves) =>
      RestartProjects(w, listing, saves, h);
  }

  lemma HealthyFront(w: World, events: seq<Event>, read: Reader)
    requires HealthyRun(w, events, read) && events != []
    ensures HealthyRun(w, events[..|events| - 1], read)
    ensures Healthy(Run(w, events[..|events| - 1], read), events[|events| - 1])
  {
    var front := events[..|events| - 1];
    forall n | 0 <= n < |front| ensures Healthy(Run(w, front[..n], read), front[n]) {
      assert front[..n] == events[..n];
    }
  }

  /** The active flight and the Redis flight of the row's aircraft carry the row's session id. */
  ghost predicate NamedByAll(w: World, id: string)
    requires id in w.rows
  {
    var h := w.rows[id].hexIdent;
    h in w.local && h in w.flights && w.local[h].sessionId == id == w.flights[h].sessionId
  }

  /** In every healthy run the four views coincide at every step: a flight is active
      locally exactly when Redis has it and exactly when the database has an open row for
      it, all three name the same session, no aircraft has two open rows, and the state
      cache covers no aircraft without an active flight. */
  lemma {:induction false} ViewsAgree(w: World, events: seq<Event>, read: Reader)
    requires Consistent(w) && HealthyRun(w, events, read)
    ensures var w' := Run(w, events, read);
            && Consistent(w') && OneOpenEach(w'.rows)
            && (forall h :: (h in w'.local <==> h in w'.flights) && (h in w'.local <==> HasOpen(w'.rows, h)))
            && (forall id :: IsOpen(w'.rows, id) ==> NamedByAll(w', id))
            && (forall h :: h in w'.cache ==> h in w'.local)
  {
    RunConsistent(w, events, read);
    var w' := Run(w, events, read);
    ConsistentRows(w');
    forall id | IsOpen(w'.rows, id) ensures NamedByAll(w', id) {
      assert InStep(w', w'.rows[id].hexIdent);
    }
  }

  lemma {:induction false} RunConsistent(w: World, events: seq<Event>, read: Reader)
    requires Consistent(w) && HealthyRun(w, events, read)
    ensures Consistent(Run(w, events, read))
  {
    if events == [] {
    } else {
      HealthyFront(w, events, read);
      RunConsistent(w, events[..|events| - 1], read);
      EventConsistent(Run(w, events[..|events| - 1], read), events[|events| - 1], read);
    }
  }

  /** The refinement: projected onto any aircraft, a healthy run of the whole tracker is
      the automaton's run over that aircraft's own signals, exactly, session ids included. */
  lemma {:induction false} TrackerRefinesAircraft(w: World, events: seq<Event>, h: string, read: Reader)
    requires Consistent(w) && HealthyRun(w, events, read)
    ensures Project(Run(w, events, read), h) == AircraftRun(Project(w, h), Signals(events, h, read))
  {
    if events == [] {
    } else {
      var front, e := events[..|events| - 1], events[|events| - 1];
      HealthyFront(w, events, read);
      RunConsistent(w, front, read);
      TrackerRefinesAircraft(w, front, h, read);
      EventProjects(Run(w, front, read), e, h, read);
      var before := Signals(front, h, read);
      if SignalFor(e, h, read).Some? {
        assert Signals(events, h, read)[..|before|] == before;
      }
    }
  }

  /** Aircraft never interfere: two healthy runs that bring one aircraft the same signals
      leave it the same, whatever else they contain. */
  lemma NoInterference(v: World, w: World, these: seq<Event>, those: seq<Event>, h: string, read: Reader)
    requires Consistent(v) && HealthyRun(v, these, read)
    requires Consistent(w) && HealthyRun(w, those, read)
    ensures Project(v, h) == Project(w, h) && Signals(these, h, read) == Signals(those, h, read) ==>
              Project(Run(v, these, read), h) == Project(Run(w, those, read), h)
  {
    TrackerRefinesAircraft(v, these, h, read);
    TrackerRefinesAircraft(w, those, h, read);
  }
}
