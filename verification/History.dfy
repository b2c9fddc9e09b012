/** What the tracker's records mean in terms of the messages heard: the state cache as
    a fold over accepted messages (under any faults), a session's record as a fold over
    its reports, and the life of a database row. */
module History {
  import opened Wrappers
  import opened Types
  import opened Tracker
  import opened Sessions

  // ---- The state cache, under any faults

  function MergeAll(states: seq<StateRecord>): StateRecord
    requires states != []
  {
    if |states| == 1 then states[0]
    else Merge(MergeAll(states[..|states| - 1]), states[|states| - 1])
  }

  lemma MergeAssociative(a: StateRecord, b: StateRecord, c: StateRecord)
    ensures Merge(Merge(a, b), c) == Merge(a, Merge(b, c))
  {
  }

  /** Merging a stream at once or in batches makes no difference. */
  lemma {:induction false} MergeInBatches(a: seq<StateRecord>, b: seq<StateRecord>)
    requires a != [] && b != []
    ensures MergeAll(a + b) == Merge(MergeAll(a), MergeAll(b))
  {
    var front, last := b[..|b| - 1], b[|b| - 1];
    assert (a + b)[..|a + b| - 1] == a + front;
    if |b| == 1 {
      assert a + front == a;
    } else {
      MergeInBatches(a, front);
      MergeAssociative(MergeAll(a), MergeAll(front), last);
    }
  }

  /** `v` is the last value of the field that is not zero, or zero if there is none. */
  ghost predicate Latest<T>(states: seq<StateRecord>, field: StateRecord -> T, zero: T, v: T) {
    || (v == zero && forall i :: 0 <= i < |states| ==> field(states[i]) == zero)
    || (v != zero && exists i :: LastAt(states, field, zero, v, i))
  }

  ghost predicate LastAt<T>(states: seq<StateRecord>, field: StateRecord -> T, zero: T, v: T, i: int) {
    && 0 <= i < |states| && field(states[i]) == v
    && forall j :: i < j < |states| ==> field(states[j]) == zero
  }

  lemma LatestExtends<T>(states: seq<StateRecord>, s: StateRecord, field: StateRecord -> T, zero: T, v: T)
    requires Latest(states, field, zero, v)
    ensures Latest(states + [s], field, zero, if field(s) != zero then field(s) else v)
  {
    var longer := states + [s];
    if field(s) != zero {
      assert LastAt(longer, field, zero, field(s), |states|);
    } else if v != zero {
      var i :| LastAt(states, field, zero, v, i);
      assert LastAt(longer, field, zero, v, i);
    }
  }

  lemma LatestOne<T>(s: StateRecord, field: StateRecord -> T, zero: T)
    ensures Latest([s], field, zero, field(s))
  {
    if field(s) != zero {
      assert LastAt([s], field, zero, field(s), 0);
    }
  }

  /** Field by field: the eight merged fields are the last non-zero ones, the ground flag
      and the time are the newest, and the identity and message type are the first. */
  ghost predicate Summarises(m: StateRecord, states: seq<StateRecord>)
    requires states != []
  {
    && Latest(states, (s: StateRecord) => s.callsign, "", m.callsign)
    && Latest(states, (s: StateRecord) => s.squawk, "", m.squawk)
    && Latest(states, (s: StateRecord) => s.altitude, 0, m.altitude)
    && Latest(states, (s: StateRecord) => s.verticalRate, 0, m.verticalRate)
    && Latest(states, (s: StateRecord) => s.groundSpeed, ZERO, m.groundSpeed)
    && Latest(states, (s: StateRecord) => s.track, ZERO, m.track)
    && Latest(states, (s: StateRecord) => s.latitude, ZERO, m.latitude)
    && Latest(states, (s: StateRecord) => s.longitude, ZERO, m.longitude)
    && m.onGround == states[|states| - 1].onGround && m.timestamp == states[|states| - 1].timestamp
    && m.hexIdent == states[0].hexIdent && m.msgType == states[0].msgType && m.sessionId == states[0].sessionId
  }

  lemma {:induction false} MergeAllSummarises(states: seq<StateRecord>)
    requires states != []
    ensures Summarises(MergeAll(states), states)
  {
    var front, s := states[..|states| - 1], states[|states| - 1];
    if front == [] {
      assert states == [s];
      OneSummarises(s);
    } else {
      MergeAllSummarises(front);
      assert states == front + [s];
      SummaryExtends(MergeAll(front), front, s);
    }
  }

  lemma OneSummarises(s: StateRecord)
    ensures Summarises(s, [s])
  {
    LatestOne(s, (s: StateRecord) => s.callsign, "");
    LatestOne(s, (s: StateRecord) => s.squawk, "");
    LatestOne(s, (s: StateRecord) => s.altitude, 0);
    LatestOne(s, (s: StateRecord) => s.verticalRate, 0);
    LatestOne(s, (s: StateRecord) => s.groundSpeed, ZERO);
    LatestOne(s, (s: StateRecord) => s.track, ZERO);
    LatestOne(s, (s: StateRecord) => s.latitude, ZERO);
    LatestOne(s, (s: StateRecord) => s.longitude, ZERO);
  }

  lemma SummaryExtends(m: StateRecord, states: seq<StateRecord>, s: StateRecord)
    requires states != [] && Summarises(m, states)
    ensures Summarises(Merge(m, s), states + [s])
  {
    LatestExtends(states, s, (s: StateRecord) => s.callsign, "", m.callsign);
    LatestExtends(states, s, (s: StateRecord) => s.squawk, "", m.squawk);
    LatestExtends(states, s, (s: StateRecord) => s.altitude, 0, m.altitude);
    LatestExtends(states, s, (s: StateRecord) => s.verticalRate, 0, m.verticalRate);
    LatestExtends(states, s, (s: StateRecord) => s.groundSpeed, ZERO, m.groundSpeed);
    LatestExtends(states, s, (s: StateRecord) => s.track, ZERO, m.track);
    LatestExtends(states, s, (s: StateRecord) => s.latitude, ZERO, m.latitude);
    LatestExtends(states, s, (s: StateRecord) => s.longitude, ZERO, m.longitude);
  }

  /** The message ends a session, whether or not the database hears of it. */
  predicate Ends(w: World, e: Event, read: Reader) {
    e.Heard? && MessageStep(w, e.msg, e.env, read).1 in {Ended, NotEnded}
  }

  /** The states of `h` accepted since its session last ended or the tracker last started. */
  function Since(w: World, events: seq<Event>, h: string, read: Reader): seq<StateRecord> {
    if events == [] then []
    else
      var front, e := events[..|events| - 1], events[|events| - 1];
      if e.Restarted? then []
      else
        match Accepted(e, read)
        case None => Since(w, front, h, read)
        case Some(s) =>
          if s.hexIdent != h then Since(w, front, h, read)
          else if Ends(Run(w, front, read), e, read) then []
          else Since(w, front, h, read) + [s]
  }

  lemma FlightStepCache(w: World, s: StateRecord, env: Environment)
    ensures var (w', o) := FlightStep(w, s, env);
            w'.cache == if o in {Ended, NotEnded} then w.cache - {s.hexIdent} else w.cache
  {
  }

  lemma CacheStep(w: World, s: StateRecord, env: Environment, h: string)
    requires !env.validation.Invalid?
    ensures var (w', o) := StateStep(w, s, env);
            if h != s.hexIdent then (h in w'.cache <==> h in w.cache) && (h in w.cache ==> w'.cache[h] == w.cache[h])
            else if o in {Ended, NotEnded} then h !in w'.cache
            else h in w'.cache && w'.cache[h] == if h in w.cache then Merge(w.cache[h], s) else s
  {
    FlightStepCache(CacheState(w, s, env), s, env);
    hide FlightStep, Merge;
  }

  /** Over any run whatever, faults included, the cache entry of an aircraft is the merge of
      exactly the states accepted for it since its session last ended. */
  lemma {:induction false} CacheIsMergeSince(w: World, events: seq<Event>, h: string, read: Reader)
    requires h !in w.cache
    ensures var w', since := Run(w, events, read), Since(w, events, h, read);
            && (h in w'.cache <==> since != [])
            && (since != [] ==> w'.cache[h] == MergeAll(since) && Summarises(w'.cache[h], since))
  {
    var since := Since(w, events, h, read);
    if events == [] {
    } else {
      var front, e := events[..|events| - 1], events[|events| - 1];
      CacheIsMergeSince(w, front, h, read);
      var before := Run(w, front, read);
      if e.Restarted? {
        LoadedLeaves(before, e.listing, e.saves);
      } else if Accepted(e, read).Some? {
        CacheStep(before, Accepted(e, read).value, e.env, h);
        if since != [] && Accepted(e, read).value.hexIdent == h {
          assert since[..|since| - 1] == Since(w, front, h, read);
        }
      }
    }
    if since == [] {
    } else {
      MergeAllSummarises(since);
    }
  }

  // ---- The flight record of an open session, in healthy runs

  function TouchAll(f: FlightRecord, states: seq<StateRecord>): FlightRecord {
    if states == [] then f
    else Touched(TouchAll(f, states[..|states| - 1]), states[|states| - 1])
  }

  /** The reports an open session has had after the one that created it or the restart
      that loaded it. */
  function Reports(a: Aircraft, signals: seq<Signal>): seq<StateRecord> {
    if signals == [] then []
    else
      var front, signal := signals[..|signals| - 1], signals[|signals| - 1];
      match signal
      case Reboot => []
      case Report(s, now, _) =>
        if AircraftRun(a, front).open.None? || Stale(s, now) then [] else Reports(a, front) + [s]
  }

  predicate Settled(a: Aircraft) {
    && (a.open.Some? ==> a.open.value.local == a.open.value.remote && a.open.value.local.sessionId in a.rows)
  }

  /** Sessions always have their row, so a restart always reloads an open one. */
  lemma {:induction false} RecordIsFold(a: Aircraft, signals: seq<Signal>)
    requires Settled(a)
    ensures var a' := AircraftRun(a, signals);
            a'.open.Some? ==>
              (var session := a'.open.value;
               && session.local.sessionId == session.remote.sessionId && session.local.sessionId in a'.rows
               && session.remote == TouchAll(session.local, Reports(a, signals)))
  {
    if signals == [] {
    } else {
      var front, signal := signals[..|signals| - 1], signals[|signals| - 1];
      RecordIsFold(a, front);
      var before := AircraftRun(a, front);
      if signal.Report? && before.open.Some? && !Stale(signal.state, signal.now) {
        var reports := Reports(a, signals);
        assert reports[..|reports| - 1] == Reports(a, front);
      }
    }
  }

  /** `f` touched by the states: the identity is kept, the maxima are the least upper
      bounds of the old ones and every reported value, and the position is the last. */
  ghost predicate Peaks(f: FlightRecord, states: seq<StateRecord>, g: FlightRecord) {
    && SameSession(f, g) && g.endedAt == f.endedAt
    && f.maxAltitude <= g.maxAltitude && !f.maxGroundSpeed.Above(g.maxGroundSpeed)
    && (forall s :: s in states ==> s.altitude <= g.maxAltitude && !s.groundSpeed.Above(g.maxGroundSpeed))
    && (g.maxAltitude == f.maxAltitude || exists s :: s in states && s.altitude == g.maxAltitude)
    && (g.maxGroundSpeed == f.maxGroundSpeed || exists s :: s in states && s.groundSpeed == g.maxGroundSpeed)
    && (if states == [] then g.lastLatitude == f.lastLatitude && g.lastLongitude == f.lastLongitude
        else g.lastLatitude == states[|states| - 1].latitude && g.lastLongitude == states[|states| - 1].longitude)
  }

  lemma AboveTransitive(x: Float, y: Float, z: Float)
    requires !x.Above(y) && z.Above(y)
    ensures !x.Above(z)
  {
  }

  lemma {:induction false} TouchAllPeaks(f: FlightRecord, states: seq<StateRecord>)
    ensures Peaks(f, states, TouchAll(f, states))
  {
    if states == [] {
    } else {
      var front, last := states[..|states| - 1], states[|states| - 1];
      TouchAllPeaks(f, front);
      PeaksExtend(f, front, last, TouchAll(f, front));
      assert states == front + [last];
    }
  }

  lemma PeaksExtend(f: FlightRecord, states: seq<StateRecord>, s: StateRecord, g: FlightRecord)
    requires Peaks(f, states, g)
    ensures Peaks(f, states + [s], Touched(g, s))
  {
    var longer, g' := states + [s], Touched(g, s);
    assert longer[|states|] == s;
    forall x | x in longer ensures x.altitude <= g'.maxAltitude && !x.groundSpeed.Above(g'.maxGroundSpeed) {
      if s.groundSpeed.Above(g.maxGroundSpeed) && x != s {
        AboveTransitive(x.groundSpeed, g.maxGroundSpeed, s.groundSpeed);
      }
    }
    if s.groundSpeed.Above(g.maxGroundSpeed) {
      AboveTransitive(f.maxGroundSpeed, g.maxGroundSpeed, s.groundSpeed);
    }
    forall x | x in states ensures x in longer {}
  }

  /** In a healthy run from settled views, Redis holds the peaks of everything heard since
      the session was created or loaded, while the tracker's own copy still holds the
      creating or loading record. */
  lemma RedisHoldsPeaks(w: World, events: seq<Event>, h: string, read: Reader)
    requires Consistent(w) && HealthyRun(w, events, read) && Settled(Project(w, h))
    ensures var w' := Run(w, events, read);
            h in w'.local ==>
              h in w'.flights && Peaks(w'.local[h], Reports(Project(w, h), Signals(events, h, read)), w'.flights[h])
  {
    RunConsistent(w, events, read);
    TrackerRefinesAircraft(w, events, h, read);
    var a, signals := Project(w, h), Signals(events, h, read);
    RecordIsFold(a, signals);
    var w' := Run(w, events, read);
    if h in w'.local {
      TouchAllPeaks(w'.local[h], Reports(a, signals));
    }
  }

  /** The row of a session that a stale report ends takes the peaks of all its reports,
      the last one included, and that report's time. */
  lemma EndedRowHoldsPeaks(w: World, events: seq<Event>, h: string, read: Reader, s: StateRecord, env: Environment)
    requires Consistent(w) && HealthyRun(w, events, read) && Settled(Project(w, h))
    requires FaultFree(env) && !env.validation.Invalid? && s.hexIdent == h && Stale(s, env.now)
    ensures var before := Run(w, events, read);
            h in before.local ==>
              (var f := before.local[h];
               var (after, outcome) := StateStep(before, s, env);
               && outcome == Ended && h !in after.local && h !in after.flights && h !in after.cache
               && f.sessionId in after.rows && after.rows[f.sessionId].endedAt == Some(s.timestamp)
               && Peaks(f, Reports(Project(w, h), Signals(events, h, read)) + [s],
                        Reloaded(f.sessionId, after.rows[f.sessionId]).(endedAt := f.endedAt)))
  {
    var before := Run(w, events, read);
    RedisHoldsPeaks(w, events, h, read);
    RunConsistent(w, events, read);
    if h in before.local {
      PeaksExtend(before.local[h], Reports(Project(w, h), Signals(events, h, read)), s, before.flights[h]);
      EndingStep(before, s, env);
    }
  }

  lemma EndingStep(w: World, s: StateRecord, env: Environment)
    requires Consistent(w) && FaultFree(env) && !env.validation.Invalid? && Stale(s, env.now) && s.hexIdent in w.local
    ensures var h := s.hexIdent;
            var f, g := w.local[h], Touched(w.flights[h], s);
            var (after, outcome) := StateStep(w, s, env);
            && outcome == Ended && h !in after.local && h !in after.flights && h !in after.cache
            && f.sessionId in after.rows && after.rows[f.sessionId].endedAt == Some(s.timestamp)
            && Reloaded(f.sessionId, after.rows[f.sessionId]).(endedAt := f.endedAt) == g.(endedAt := f.endedAt)
  {
    assert InStep(w, s.hexIdent);
    assert StateStep(w, s, env) == EndSession(CacheState(w, s, env), Touched(w.flights[s.hexIdent], s), s, env);
  }

  // ---- Where a session comes from

  /** The report that opened the session now open, and the id drawn for it. */
  function Opener(a: Aircraft, signals: seq<Signal>): Option<Signal> {
    if signals == [] then None
    else
      var front, signal := signals[..|signals| - 1], signals[|signals| - 1];
      match signal
      case Reboot => Opener(a, front)
      case Report(s, now, _) =>
        if AircraftRun(a, front).open.None? then Some(signal)
        else if Stale(s, now) then None
        else Opener(a, front)
  }

  /** The identity and start of a flight are those of one report. */
  predicate StartsWith(f: FlightRecord, opener: Signal)
    requires opener.Report?
  {
    var s := opener.state;
    && f.sessionId == opener.newSession && f.hexIdent == s.hexIdent && f.callsign == s.callsign
    && f.startedAt == s.timestamp && f.firstLatitude == s.latitude && f.firstLongitude == s.longitude
  }

  /** No report has been counted in. */
  predicate Untouched(f: FlightRecord) {
    f.maxAltitude == 0 && f.maxGroundSpeed == ZERO && f.lastLatitude == ZERO && f.lastLongitude == ZERO
  }

  /** From idle, a session is open exactly when some report opened it and no stale one has
      ended it since; the tracker's copy, Redis and the database row all start with that
      report, across any number of restarts. Until it ends, the row and the tracker's copy count
      no report at all, so a restart, which copies the row to Redis, forgets the peaks so far. */
  lemma {:induction false} SessionStartsWithOpener(a: Aircraft, signals: seq<Signal>)
    requires a.open.None?
    ensures var a', opener := AircraftRun(a, signals), Opener(a, signals);
            && (opener.Some? ==> opener.value.Report?) && (a'.open.Some? <==> opener.Some?)
            && (opener.Some? ==>
                  var id := opener.value.newSession;
                  && StartsWith(a'.open.value.local, opener.value) && StartsWith(a'.open.value.remote, opener.value)
                  && id in a'.rows && a'.rows[id].endedAt.None? && StartsWith(Reloaded(id, a'.rows[id]), opener.value)
                  && Untouched(a'.open.value.local) && Untouched(Reloaded(id, a'.rows[id])))
  {
    if signals == [] {
    } else {
      SessionStartsWithOpener(a, signals[..|signals| - 1]);
    }
  }

  /** The same of the whole tracker. */
  lemma FlightStartsWithOpener(w: World, events: seq<Event>, h: string, read: Reader)
    requires Consistent(w) && HealthyRun(w, events, read) && h !in w.local
    ensures var w', opener := Run(w, events, read), Opener(Project(w, h), Signals(events, h, read));
            && (h in w'.local <==> opener.Some?)
            && (opener.Some? ==>
                  && opener.value.Report? && h in w'.flights
                  && StartsWith(w'.local[h], opener.value) && StartsWith(w'.flights[h], opener.value)
                  && Untouched(w'.local[h])
                  && var id := opener.value.newSession;
                     && IsOpen(w'.rows, id) && StartsWith(Reloaded(id, w'.rows[id]), opener.value)
                     && Untouched(Reloaded(id, w'.rows[id])))
  {
    RunConsistent(w, events, read);
    TrackerRefinesAircraft(w, events, h, read);
    SessionStartsWithOpener(Project(w, h), Signals(events, h, read));
  }

  // ---- What the database logs, under any faults

  /** The accepted states whose insertion took effect, as they were parsed. */
  function Logged(events: seq<Event>, read: Reader): seq<StateRecord> {
    if events == [] then []
    else
      var before, e := Logged(events[..|events| - 1], read), events[|events| - 1];
      match Accepted(e, read)
      case Some(s) => if e.env.storeState.Took() then before + [s] else before
      case None => before
  }

  /** The state log holds the messages themselves, in order, never the merged cache. */
  lemma {:induction false} LogHoldsRawStates(w: World, events: seq<Event>, read: Reader)
    ensures Run(w, events, read).log == w.log + Logged(events, read)
  {
    if events == [] {
    } else {
      var front, e := events[..|events| - 1], events[|events| - 1];
      LogHoldsRawStates(w, front, read);
      LogStep(Run(w, front, read), e, read);
    }
  }

  lemma LogStep(w: World, e: Event, read: Reader)
    ensures EventStep(w, e, read).log
         == if Accepted(e, read).Some? && e.env.storeState.Took() then w.log + [Accepted(e, read).value] else w.log
  {
    if e.Restarted? {
      LoadedLeaves(w, e.listing, e.saves);
    } else if Accepted(e, read).Some? {
      StateLogs(w, Accepted(e, read).value, e.env);
    }
  }

  lemma StateLogs(w: World, s: StateRecord, env: Environment)
    requires !env.validation.Invalid?
    ensures StateStep(w, s, env).0.log == if env.storeState.Took() then w.log + [s] else w.log
  {
    var w' := CacheState(w, s, env);
    assert FlightStep(w', s, env).0.log == w'.log;
  }

  // ---- The life of a row, in healthy runs

  /** Rows are never lost, keep their identity, and never change once they have ended. */
  ghost predicate RowsGrow(r: Rows, s: Rows) {
    forall id :: id in r ==> id in s && RowGrows(r[id], s[id])
  }

  predicate RowGrows(r: Row, s: Row) {
    && (r.hexIdent, r.startedAt, r.firstLatitude, r.firstLongitude)
    == (s.hexIdent, s.startedAt, s.firstLatitude, s.firstLongitude)
    && (r.endedAt.Some? ==> s == r)
  }

  lemma EventGrowsRows(w: World, e: Event, read: Reader)
    requires Consistent(w) && Healthy(w, e)
    ensures RowsGrow(w.rows, EventStep(w, e, read).rows)
  {
    match e
    case Restarted(listing, saves) =>
      LoadedLeaves(w, listing, saves);
    case Heard(msg, env) =>
      if Accepted(e, read).Some? {
        StateStepGrowsRows(w, Accepted(e, read).value, env);
      }
  }

  lemma StateStepRows(w: World, s: StateRecord, env: Environment)
    requires Consistent(w) && FaultFree(env) && env.newSession !in w.rows && !env.validation.Invalid?
    ensures StateStep(w, s, env).0.rows
         == if s.hexIdent !in w.local then Inserted(w.rows, NewFlight(s, env.newSession))
            else if Stale(s, env.now) then Closed(w.rows, Touched(w.flights[s.hexIdent], s).(endedAt := s.timestamp))
            else w.rows
  {
    assert s.hexIdent in w.local.Keys <==> s.hexIdent in w.flights.Keys;
    hide Linked, Inserted, Closed, Touched;
  }

  lemma StateStepGrowsRows(w: World, s: StateRecord, env: Environment)
    requires Consistent(w) && FaultFree(env) && env.newSession !in w.rows && !env.validation.Invalid?
    ensures RowsGrow(w.rows, StateStep(w, s, env).0.rows)
  {
    StateStepRows(w, s, env);
    hide StateStep;
    if s.hexIdent !in w.local {
      InsertingGrows(w.rows, NewFlight(s, env.newSession));
    } else if Stale(s, env.now) {
      assert InStep(w, s.hexIdent);
      ClosingGrows(w.rows, Touched(w.flights[s.hexIdent], s).(endedAt := s.timestamp));
    }
  }

  lemma InsertingGrows(rows: Rows, f: FlightRecord)
    requires f.sessionId !in rows
    ensures RowsGrow(rows, Inserted(rows, f))
  {
  }

  lemma ClosingGrows(rows: Rows, f: FlightRecord)
    requires IsOpen(rows, f.sessionId)
    ensures RowsGrow(rows, Closed(rows, f))
  {
  }

  /** Between any two moments of a healthy run: a session is created at most once, ended at
      most once, and an ended row stays exactly as it ended. */
  lemma {:induction false} EndedRowsFrozen(w: World, events: seq<Event>, n: nat, read: Reader)
    requires Consistent(w) && HealthyRun(w, events, read) && n <= |events|
    ensures RowsGrow(Run(w, events[..n], read).rows, Run(w, events, read).rows)
  {
    if n == |events| {
      assert events[..n] == events;
    } else {
      var front := events[..|events| - 1];
      HealthyFront(w, events, read);
      EndedRowsFrozen(w, front, n, read);
      assert front[..n] == events[..n];
      RunConsistent(w, front, read);
      EventGrowsRows(Run(w, front, read), events[|events| - 1], read);
    }
  }

  // ---- When a session is opened, under any faults

  /** An accepted and stored state of an aircraft that neither Redis nor the tracker has a flight
      for, as far as Redis says: no answer, or a miss answered with nil. */
  predicate Opens(w: World, s: StateRecord, env: Environment) {
    env.storeState.Done? && s.hexIdent !in w.local
    && (!env.fetched || (s.hexIdent !in w.flights && !env.missIsZero))
  }

  predicate EventOpens(w: World, e: Event, read: Reader) {
    Accepted(e, read).Some? && Opens(w, Accepted(e, read).value, e.env)
  }

  lemma StateOpensExactly(w: World, s: StateRecord, env: Environment)
    requires !env.validation.Invalid?
    ensures StateStep(w, s, env).1 in {Created, NotCreated} <==> Opens(w, s, env)
    ensures StateStep(w, s, env).0.rows.Keys
         == w.rows.Keys + (if Opens(w, s, env) && env.createRow.Took() then {env.newSession} else {})
  {
    var w' := CacheState(w, s, env);
    if !env.storeState.Done? {
    } else if Opens(w, s, env) {
      assert StateStep(w, s, env) == OpenSession(w', s, env);
    } else {
      NotOpened(w', s, env);
    }
  }

  lemma NotOpened(w: World, s: StateRecord, env: Environment)
    requires Fetched(w, s.hexIdent, env).Some? || s.hexIdent in w.local
    ensures FlightStep(w, s, env).1 !in {Created, NotCreated} && FlightStep(w, s, env).0.rows.Keys == w.rows.Keys
  {
    var fetched := Fetched(w, s.hexIdent, env);
    var f := Touched(if fetched.Some? then fetched.value else w.local[s.hexIdent], s).(endedAt := s.timestamp);
    assert Closed(w.rows, f).Keys == w.rows.Keys;
  }

  /** The session ids drawn by the messages of a run that open a session and reach the database. */
  function Drawn(w: World, events: seq<Event>, read: Reader): set<string> {
    if events == [] then {}
    else
      var front, e := events[..|events| - 1], events[|events| - 1];
      if EventOpens(Run(w, front, read), e, read) && e.env.createRow.Took() then Drawn(w, front, read) + {e.env.newSession}
      else Drawn(w, front, read)
  }

  lemma EventOpensExactly(w: World, e: Event, read: Reader)
    ensures e.Heard? ==> (MessageStep(w, e.msg, e.env, read).1 in {Created, NotCreated} <==> EventOpens(w, e, read))
    ensures EventStep(w, e, read).rows.Keys
         == w.rows.Keys + (if EventOpens(w, e, read) && e.env.createRow.Took() then {e.env.newSession} else {})
  {
    if Accepted(e, read).Some? {
      StateOpensExactly(w, Accepted(e, read).value, e.env);
    } else if e.Restarted? {
      LoadedLeaves(w, e.listing, e.saves);
    }
  }

  /** Over any run whatever, faults and restarts included, the rows are those there were and those
      of the sessions opened, neither more nor less. */
  lemma {:induction false} RowsComeFromOpenings(w: World, events: seq<Event>, read: Reader)
    ensures Run(w, events, read).rows.Keys == w.rows.Keys + Drawn(w, events, read)
  {
    if events == [] {
    } else {
      var front, e := events[..|events| - 1], events[|events| - 1];
      RowsComeFromOpenings(w, front, read);
      EventOpensExactly(Run(w, front, read), e, read);
    }
  }

  /** A session is opened if and only if a stored state's fetch fails and the tracker has no flight. */
  predicate OpensOnFailedFetch(w: World, e: Event, read: Reader)
    requires e.Heard?
  {
    MessageStep(w, e.msg, e.env, read).1 in {Created, NotCreated} <==>
    (Accepted(e, read).Some? && e.env.storeState.Done? && !e.env.fetched && Accepted(e, read).value.hexIdent !in w.local)
  }

  /** The concrete Redis client answers a miss with a zero flight instead of nil. Against it a
      message opens a session exactly when the fetch fails and the tracker has no flight itself;
      so, as long as the client answers, no run ever adds a row. */
  lemma {:induction false} ZeroMissNeverOpens(w: World, events: seq<Event>, read: Reader)
    requires forall e :: e in events && e.Heard? ==> e.env.missIsZero
    ensures forall n :: 0 <= n < |events| && events[n].Heard? ==>
              OpensOnFailedFetch(Run(w, events[..n], read), events[n], read)
    ensures (forall e :: e in events && e.Heard? ==> e.env.fetched) ==> Run(w, events, read).rows.Keys == w.rows.Keys
  {
    forall n | 0 <= n < |events| && events[n].Heard?
      ensures OpensOnFailedFetch(Run(w, events[..n], read), events[n], read)
    {
      assert events[n] in events;
      EventOpensExactly(Run(w, events[..n], read), events[n], read);
    }
    if forall e :: e in events && e.Heard? ==> e.env.fetched {
      NothingDrawn(w, events, read);
      RowsComeFromOpenings(w, events, read);
    }
  }

  lemma {:induction false} NothingDrawn(w: World, events: seq<Event>, read: Reader)
    requires forall e :: e in events && e.Heard? ==> e.env.missIsZero && e.env.fetched
    ensures Drawn(w, events, read) == {}
  {
    if events == [] {
    } else {
      assert events[|events| - 1] in events;
      NothingDrawn(w, events[..|events| - 1], read);
    }
  }

  // ---- After Start

  /** Start leaves every session settled: local and Redis records are the same, with their row. */
  lemma LoadedSettled(w: World, listing: seq<FlightRecord>, saves: nat -> Reply, h: string)
    requires Lists(listing, w.rows) && forall n :: 0 <= n < |listing| ==> saves(n).Took()
    requires Consistent(Loaded(w, listing, saves))
    ensures Settled(Project(Loaded(w, listing, saves), h))
  {
    LoadedFlights(w, listing, saves);
    var w' := Loaded(w, listing, saves);
    if h in w'.local {
      assert InStep(w', h);
      assert w'.local[h].sessionId in RowsOf(w'.rows, h);
    }
  }
}
