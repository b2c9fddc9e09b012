/** The tracker's views under faults (cmd/tracker/main.go): exactly which failures of which
    calls put them out of step, and what still holds when none of those happen. */
module Faults {
  import opened Types
  import opened Tracker
  import opened Sessions

  /** The failures an accepted state survives, case by case. */
  predicate Harmless(w: World, s: StateRecord, env: Environment) {
    var h := s.hexIdent;
    if !env.storeState.Done? then h in w.local           // else a cached state without a flight
    else if h in w.local then
      if Stale(s, env.now) then env.dropFlight.Took() && env.closeRow.Took()
      else env.fetched || env.saveFlight.Took()
           || (h in w.flights && AtMost(Touched(w.local[h], s), w.flights[h]))
    else if env.fetched && env.missIsZero then
      Stale(s, env.now) && !(env.closeRow.Took() && "" in w.rows && w.rows[""].endedAt.None?)
    else env.saveFlight.Took() && env.createRow.Took()
  }

  lemma StoreRefused(w: World, s: StateRecord, env: Environment)
    requires Consistent(w) && !env.validation.Invalid? && !env.storeState.Done?
    ensures Consistent(StateStep(w, s, env).0) <==> s.hexIdent in w.local
  {
    CacheLinked(w, s, env);
  }

  lemma OpeningExactly(w: World, s: StateRecord, env: Environment)
    requires Linked(w) && env.newSession !in w.rows && s.hexIdent !in w.local
    ensures Linked(OpenSession(w, s, env).0) <==> env.saveFlight.Took() && env.createRow.Took()
  {
    var w' := OpenSession(w, s, env).0;
    if !env.saveFlight.Took() {
      assert s.hexIdent in w'.local.Keys && s.hexIdent !in w'.flights.Keys;
    } else if !env.createRow.Took() {
      assert env.newSession !in w'.rows && !InStep(w', s.hexIdent);
    } else {
      OpenLinked(w, s, env);
    }
  }

  lemma EndingExactly(w: World, f: FlightRecord, s: StateRecord, env: Environment)
    requires Linked(w) && s.hexIdent in w.local && f.sessionId == w.local[s.hexIdent].sessionId
    ensures Linked(EndSession(w, f, s, env).0) <==> env.dropFlight.Took() && env.closeRow.Took()
  {
    var w' := EndSession(w, f, s, env).0;
    assert InStep(w, s.hexIdent);
    if !env.dropFlight.Took() {
      assert s.hexIdent in w'.flights.Keys && s.hexIdent !in w'.local.Keys;
    } else if !env.closeRow.Took() {
      assert IsOpen(w'.rows, f.sessionId) && w'.rows[f.sessionId].hexIdent !in w'.local;
    } else {
      EndLinked(w, f, s, env);
    }
  }

  /** `w'` is `w` with the tracker's own record touched in place, and saved or not. */
  ghost predicate OwnUpdate(w: World, w': World, s: StateRecord, saved: bool)
    requires s.hexIdent in w.local
  {
    var f := Touched(w.local[s.hexIdent], s);
    w' == w.(local := w.local[s.hexIdent := f], flights := if saved then w.flights[s.hexIdent := f] else w.flights)
  }

  lemma OwnUpdateExactly(w: World, w': World, s: StateRecord, saved: bool)
    requires Linked(w) && s.hexIdent in w.local && OwnUpdate(w, w', s, saved)
    ensures s.hexIdent in w.flights
    ensures Linked(w') <==> saved || AtMost(Touched(w.local[s.hexIdent], s), w.flights[s.hexIdent])
  {
    assert s.hexIdent in w.flights.Keys && w'.local.Keys == w.local.Keys && w'.flights.Keys == w.flights.Keys;
    OwnInStep(w, w', s, saved);
    if InStep(w', s.hexIdent) {
      OwnOthersLinked(w, w', s, saved);
    }
  }

  lemma OwnInStep(w: World, w': World, s: StateRecord, saved: bool)
    requires Linked(w) && s.hexIdent in w.local && OwnUpdate(w, w', s, saved)
    requires s.hexIdent in w.flights && s.hexIdent in w'.local && s.hexIdent in w'.flights
    ensures InStep(w', s.hexIdent) <==> saved || AtMost(Touched(w.local[s.hexIdent], s), w.flights[s.hexIdent])
  {
    assert InStep(w, s.hexIdent);
    hide Linked;
  }

  lemma OwnOthersLinked(w: World, w': World, s: StateRecord, saved: bool)
    requires Linked(w) && s.hexIdent in w.local && OwnUpdate(w, w', s, saved)
    requires s.hexIdent in w'.local && s.hexIdent in w'.flights && InStep(w', s.hexIdent)
    ensures Linked(w')
  {
    hide InStep;
    assert w'.local.Keys == w.local.Keys && w'.flights.Keys == w.flights.Keys;
    forall g | g in w'.local ensures InStep(w', g) {
      if g != s.hexIdent {
        OtherInStep(w, w', g);
      }
    }
    forall id | IsOpen(w'.rows, id)
      ensures w'.rows[id].hexIdent in w'.local && w'.local[w'.rows[id].hexIdent].sessionId == id
    {
      assert IsOpen(w.rows, id);
    }
  }

  lemma OtherInStep(w: World, w': World, g: string)
    requires Linked(w) && g in w.local && g in w'.local && g in w'.flights && g in w.flights
    requires w'.local[g] == w.local[g] && w'.flights[g] == w.flights[g] && w'.rows == w.rows
    ensures InStep(w', g)
  {
    assert InStep(w, g);
  }

  /** A fetched copy touched, and saved or not. */
  lemma FetchedUpdateLinked(w: World, w': World, s: StateRecord, saved: bool)
    requires Linked(w) && s.hexIdent in w.local
    requires w' == if saved then w.(flights := w.flights[s.hexIdent := Touched(w.flights[s.hexIdent], s)]) else w
    ensures Linked(w')
  {
    assert InStep(w, s.hexIdent);
    forall h | h in w'.local ensures InStep(w', h) {
      assert InStep(w, h);
    }
  }

  /** A zero flight ended: the row without a session id is closed, if there is one. */
  lemma ZeroEndingExactly(w: World, w': World, f: FlightRecord, closed: bool)
    requires Linked(w) && f.sessionId == ""
    requires w'.local == w.local && w'.flights == w.flights && w'.rows == if closed then Closed(w.rows, f) else w.rows
    ensures Linked(w') <==> !(closed && IsOpen(w.rows, ""))
  {
    if closed && IsOpen(w.rows, "") {
      var h := w.rows[""].hexIdent;
      assert InStep(w, h) && !InStep(w', h);
    } else {
      forall h | h in w'.local ensures InStep(w', h) {
        assert InStep(w, h);
      }
      forall id | IsOpen(w'.rows, id)
        ensures w'.rows[id].hexIdent in w'.local && w'.local[w'.rows[id].hexIdent].sessionId == id
      {
        assert IsOpen(w.rows, id);
      }
    }
  }

  // ---- One state, any faults

  lemma StepEnds(w: World, s: StateRecord, env: Environment, f: FlightRecord)
    requires !env.validation.Invalid? && env.storeState.Done? && Stale(s, env.now)
    requires Fetched(w, s.hexIdent, env).Some? || s.hexIdent in w.local
    requires f == Touched(if Fetched(w, s.hexIdent, env).Some? then Fetched(w, s.hexIdent, env).value else w.local[s.hexIdent], s)
    ensures StateStep(w, s, env) == EndSession(CacheState(w, s, env), f, s, env)
  {
  }

  lemma OneSession(w: World, h: string)
    requires Linked(w) && h in w.local
    ensures h in w.flights && w.flights[h].sessionId == w.local[h].sessionId
  {
    assert InStep(w, h);
  }

  lemma EndedAircraft(w: World, s: StateRecord, env: Environment)
    requires Consistent(w) && !env.validation.Invalid? && env.storeState.Done? && s.hexIdent in w.local
    requires Stale(s, env.now)
    ensures Consistent(StateStep(w, s, env).0) <==> env.dropFlight.Took() && env.closeRow.Took()
  {
    var w' := CacheState(w, s, env);
    CacheLinked(w, s, env);
    OneSession(w, s.hexIdent);
    var f := Touched(if env.fetched then w.flights[s.hexIdent] else w.local[s.hexIdent], s);
    StepEnds(w, s, env, f);
    hide Linked, StateStep;
    EndingExactly(w', f, s, env);
    assert EndSession(w', f, s, env).0.cache.Keys <= EndSession(w', f, s, env).0.local.Keys;
  }

  lemma FetchedAircraft(w: World, s: StateRecord, env: Environment)
    requires Consistent(w) && !env.validation.Invalid? && env.storeState.Done? && s.hexIdent in w.local
    requires !Stale(s, env.now) && env.fetched
    ensures Consistent(StateStep(w, s, env).0)
  {
    var w' := CacheState(w, s, env);
    CacheLinked(w, s, env);
    FetchedHexIdent(w, s.hexIdent);
    hide Linked, Touched, Merge;
    var saved := env.saveFlight.Took();
    var after := if saved then w'.(flights := w'.flights[s.hexIdent := Touched(w'.flights[s.hexIdent], s)]) else w';
    assert StateStep(w, s, env).0 == after by { TouchedKeepsHexIdent(w'.flights[s.hexIdent], s); }
    FetchedUpdateLinked(w', after, s, saved);
  }

  lemma TouchedKeepsHexIdent(f: FlightRecord, s: StateRecord)
    ensures Touched(f, s).hexIdent == f.hexIdent
  {
  }

  lemma OwnAircraft(w: World, s: StateRecord, env: Environment)
    requires Consistent(w) && !env.validation.Invalid? && env.storeState.Done?
    requires s.hexIdent in w.local && s.hexIdent in w.flights && !Stale(s, env.now) && !env.fetched
    ensures Consistent(StateStep(w, s, env).0)
       <==> env.saveFlight.Took() || AtMost(Touched(w.local[s.hexIdent], s), w.flights[s.hexIdent])
  {
    var w' := CacheState(w, s, env);
    CacheLinked(w, s, env);
    FetchedHexIdent(w, s.hexIdent);
    hide Linked, Touched, Merge, AtMost;
    var saved := env.saveFlight.Took();
    var f := Touched(w'.local[s.hexIdent], s);
    var after := w'.(local := w'.local[s.hexIdent := f], flights := if saved then w'.flights[s.hexIdent := f] else w'.flights);
    assert StateStep(w, s, env).0 == after by { TouchedKeepsHexIdent(w'.local[s.hexIdent], s); }
    OwnUpdateExactly(w', after, s, saved);
    assert after.cache.Keys <= after.local.Keys;
  }

  lemma FetchedHexIdent(w: World, h: string)
    requires Linked(w) && h in w.local
    ensures h in w.flights && w.flights[h].hexIdent == h == w.local[h].hexIdent
  {
    assert InStep(w, h);
  }

  lemma UnknownAircraft(w: World, s: StateRecord, env: Environment)
    requires Consistent(w) && env.newSession !in w.rows && !env.validation.Invalid? && env.storeState.Done?
    requires s.hexIdent !in w.local && !(env.fetched && env.missIsZero)
    ensures Consistent(StateStep(w, s, env).0) <==> env.saveFlight.Took() && env.createRow.Took()
  {
    var w' := CacheState(w, s, env);
    CacheLinked(w, s, env);
    assert s.hexIdent !in w.flights.Keys;
    assert StateStep(w, s, env) == OpenSession(w', s, env);
    hide Linked;
    OpeningExactly(w', s, env);
  }

  lemma ZeroFlightAircraft(w: World, s: StateRecord, env: Environment)
    requires Consistent(w) && !env.validation.Invalid? && env.storeState.Done?
    requires s.hexIdent !in w.local && env.fetched && env.missIsZero
    ensures Consistent(StateStep(w, s, env).0) <==> Stale(s, env.now) && !(env.closeRow.Took() && IsOpen(w.rows, ""))
  {
    var w' := CacheState(w, s, env);
    CacheLinked(w, s, env);
    assert s.hexIdent !in w.flights.Keys;
    hide Linked, Closed, Touched, IsOpen;
    var after := StateStep(w, s, env).0;
    if Stale(s, env.now) {
      var f := Touched(BLANK_FLIGHT, s);
      StepEnds(w, s, env, f);
      assert after.local == w'.local && after.flights == w'.flights;
      ZeroEndingExactly(w', after, f.(endedAt := s.timestamp), env.closeRow.Took());
    } else {
      assert s.hexIdent in after.cache.Keys && s.hexIdent !in after.local.Keys;
    }
  }

  /** Exactly which failures of which calls put the views out of step, for every state accepted
      by a tracker whose views are in step. */
  lemma StateStepConsistentExactly(w: World, s: StateRecord, env: Environment)
    requires Consistent(w) && env.newSession !in w.rows && !env.validation.Invalid?
    ensures Consistent(StateStep(w, s, env).0) <==> Harmless(w, s, env)
  {
    if !env.storeState.Done? {
      StoreRefused(w, s, env);
    } else if s.hexIdent in w.local {
      OneSession(w, s.hexIdent);
      if Stale(s, env.now) {
        EndedAircraft(w, s, env);
      } else {
        if env.fetched {
          FetchedAircraft(w, s, env);
        } else {
          OwnAircraft(w, s, env);
        }
      }
    } else if env.fetched && env.missIsZero {
      ZeroFlightAircraft(w, s, env);
    } else {
      UnknownAircraft(w, s, env);
    }
  }

  // ---- Runs under harmless faults

  ghost predicate HarmlessEvent(w: World, e: Event, read: Reader) {
    match e
    case Heard(_, env) =>
      Accepted(e, read).Some? ==>
        env.newSession !in w.rows && env.newSession != "" && Harmless(w, Accepted(e, read).value, env)
    case Restarted(listing, saves) => Lists(listing, w.rows) && forall n :: 0 <= n < |listing| ==> saves(n).Took()
  }

  ghost predicate HarmlessRun(w: World, events: seq<Event>, read: Reader) {
    forall n :: 0 <= n < |events| ==> HarmlessEvent(Run(w, events[..n], read), events[n], read)
  }

  lemma HarmlessFront(w: World, events: seq<Event>, read: Reader)
    requires HarmlessRun(w, events, read) && events != []
    ensures HarmlessRun(w, events[..|events| - 1], read)
    ensures HarmlessEvent(Run(w, events[..|events| - 1], read), events[|events| - 1], read)
  {
    var front := events[..|events| - 1];
    forall n | 0 <= n < |front| ensures HarmlessEvent(Run(w, front[..n], read), front[n], read) {
      assert front[..n] == events[..n];
    }
  }

  lemma HarmlessKeepsLinks(w: World, e: Event, read: Reader)
    requires Consistent(w) && HarmlessEvent(w, e, read)
    ensures Consistent(EventStep(w, e, read))
  {
    match e
    case Heard(msg, env) =>
      if Accepted(e, read).Some? {
        StateStepConsistentExactly(w, Accepted(e, read).value, env);
      }
    case Restarted(listing, saves) =>
      ConsistentRows(w);
      StartConsistent(w, listing, saves);
  }

  /** The views stay in step over every run whose failures are harmless. */
  lemma {:induction false} HarmlessRunConsistent(w: World, events: seq<Event>, read: Reader)
    requires Consistent(w) && HarmlessRun(w, events, read)
    ensures Consistent(Run(w, events, read))
  {
    if events == [] {
    } else {
      HarmlessFront(w, events, read);
      HarmlessRunConsistent(w, events[..|events| - 1], read);
      HarmlessKeepsLinks(Run(w, events[..|events| - 1], read), events[|events| - 1], read);
    }
  }
}
