/** What each message decides (cmd/tracker/main.go), with the thresholds and the answers of the
    calls written out: when a session opens and ends, which outcome is reported, what the gauges
    show, what Redis keeps of a state, and which of several rows a restart loads. */
module Decisions {
  import opened Wrappers
  import opened Types
  import opened Statistics
  import opened Tracker
  import opened Sessions
  import opened History
  import Counting

  // ---- When a session ends

  /** A stored state of an aircraft with a flight, in Redis or in memory, ends it exactly if the
      report is more than five minutes old, and updates it otherwise. */
  lemma EndsExactly(w: World, s: StateRecord, env: Environment)
    requires !env.validation.Invalid? && env.storeState.Done?
    requires Fetched(w, s.hexIdent, env).Some? || s.hexIdent in w.local
    ensures StateStep(w, s, env).1 in {Ended, NotEnded} <==> env.now > s.timestamp + 5 * 60 * 1_000_000_000
    ensures StateStep(w, s, env).1 == Updated <==> env.now <= s.timestamp + 5 * 60 * 1_000_000_000
  {
    hide Touched, Closed, Merge;
  }

  /** All eight outcomes, by the answers of the calls and nothing else. */
  lemma OutcomeExactly(w: World, s: StateRecord, env: Environment)
    ensures var o := StateStep(w, s, env).1;
            var skipped, stored := env.validation == Invalid, env.validation != Invalid && env.storeState == Done;
            var opens := stored && s.hexIdent !in w.local && (!env.fetched || (s.hexIdent !in w.flights && !env.missIsZero));
            var late := env.now > s.timestamp + 5 * 60 * 1_000_000_000;
            && (o == Skipped <==> skipped)
            && (o == StateNotStored <==> !skipped && env.storeState != Done)
            && (o == Created <==> opens && env.createRow == Done && env.newSession !in w.rows)
            && (o == NotCreated <==> opens && !(env.createRow == Done && env.newSession !in w.rows))
            && (o == Updated <==> stored && !opens && !late)
            && (o == Ended <==> stored && !opens && late && env.closeRow == Done)
            && (o == NotEnded <==> stored && !opens && late && env.closeRow != Done)
            && o != Unparsed
  {
    hide Touched, Closed, Inserted, Merge, NewFlight;
    assert s.hexIdent in CacheState(w, s, env).local <==> s.hexIdent in w.local;
    if !env.validation.Invalid? && env.storeState.Done? {
      FlightOutcome(CacheState(w, s, env), s, env);
    }
    hide FlightStep;
  }

  lemma FlightOutcome(w: World, s: StateRecord, env: Environment)
    ensures var o := FlightStep(w, s, env).1;
            var opens := s.hexIdent !in w.local && (!env.fetched || (s.hexIdent !in w.flights && !env.missIsZero));
            var late := env.now > s.timestamp + 5 * 60 * 1_000_000_000;
            && (o == Created <==> opens && env.createRow == Done && env.newSession !in w.rows)
            && (o == NotCreated <==> opens && !(env.createRow == Done && env.newSession !in w.rows))
            && (o == Updated <==> !opens && !late)
            && (o == Ended <==> !opens && late && env.closeRow == Done)
            && (o == NotEnded <==> !opens && late && env.closeRow != Done)
  {
    hide Touched, Closed, Inserted;
  }

  /** In healthy runs an active flight is gone after exactly the late reports of its aircraft. */
  lemma SessionOverExactly(w: World, events: seq<Event>, e: Event, h: string, read: Reader)
    requires Consistent(w) && HealthyRun(w, events, read) && Healthy(Run(w, events, read), e)
    ensures var before := Run(w, events, read);
            h in before.local ==>
              (h !in EventStep(before, e, read).local <==>
                 && e.Heard? && Accepted(e, read).Some? && Accepted(e, read).value.hexIdent == h
                 && e.env.now > Accepted(e, read).value.timestamp + 5 * 60 * 1_000_000_000)
  {
    RunConsistent(w, events, read);
    EventEndsExactly(Run(w, events, read), e, h, read);
  }

  lemma EventEndsExactly(w: World, e: Event, h: string, read: Reader)
    requires Consistent(w) && Healthy(w, e)
    ensures h in w.local ==>
              (h !in EventStep(w, e, read).local <==>
                 && e.Heard? && Accepted(e, read).Some? && Accepted(e, read).value.hexIdent == h
                 && e.env.now > Accepted(e, read).value.timestamp + 5 * 60 * 1_000_000_000)
  {
    if e.Restarted? {
      RestartReloads(w, e.listing, e.saves, h);
    } else if Accepted(e, read).Some? {
      Counting.StateStepBranch(w, Accepted(e, read).value, e.env);
      hide StateStep, Consistent;
    }
  }

  // ---- INSERT

  /** A session id that has a row already is refused, and its row stays as it is; any other gets
      the flight's own row, open. */
  lemma InsertExactly(rows: Rows, f: FlightRecord)
    ensures f.sessionId in rows ==> Inserted(rows, f) == rows
    ensures f.sessionId !in rows ==>
              && Inserted(rows, f).Keys == rows.Keys + {f.sessionId}
              && Inserted(rows, f)[f.sessionId].endedAt == None
              && Reloaded(f.sessionId, Inserted(rows, f)[f.sessionId]) == f.(endedAt := NO_TIME)
              && forall id :: id in rows ==> Inserted(rows, f)[id] == rows[id]
  {
  }

  /** UPDATE changes the callsign, the end, the last position and the maxima of the session's row,
      and no other row; without a row it changes nothing. */
  lemma UpdateExactly(rows: Rows, f: FlightRecord)
    ensures Closed(rows, f).Keys == rows.Keys
    ensures forall id :: id in rows && id != f.sessionId ==> Closed(rows, f)[id] == rows[id]
    ensures f.sessionId in rows ==>
              (var (r, r') := (rows[f.sessionId], Closed(rows, f)[f.sessionId]);
               r' == Row(r.hexIdent, f.callsign, r.startedAt, Some(f.endedAt), r.firstLatitude, r.firstLongitude,
                         f.lastLatitude, f.lastLongitude, f.maxAltitude, f.maxGroundSpeed))
  {
  }

  // ---- The gauges

  /** After a message whose flight update succeeded the gauges are the numbers of cached aircraft
      and active flights, as 64-bit words; any other message leaves them. */
  lemma GaugesExactly(w: World, events: seq<Event>, read: Reader)
    requires events != [] && events[|events| - 1].Heard?
    ensures var front, e := events[..|events| - 1], events[|events| - 1];
            var (c, before, w') := (Counting.CountersAt(w, events, read), Counting.CountersAt(w, front, read), Run(w, events, read));
            if Counting.OutcomeAt(Run(w, front, read), e, read) in {Created, Updated, Ended} then
              c.activeAircraft == |w'.cache| % 18446744073709551616 && c.activeFlights == |w'.local| % 18446744073709551616
            else c.activeAircraft == before.activeAircraft && c.activeFlights == before.activeFlights
  {
    var front, e := events[..|events| - 1], events[|events| - 1];
    GaugesCounted(Counting.CountersAt(w, front, read), TypeOf(e.msg, read), Counting.OutcomeAt(Run(w, front, read), e, read),
                  |Run(w, events, read).cache|, |Run(w, events, read).local|);
    hide Counted, Counting.OutcomeAt;
  }

  lemma GaugesCounted(c: Counters, msgType: int, outcome: Outcome, aircraft: nat, flights: nat)
    ensures var c' := Counted(c, msgType, outcome, aircraft, flights);
            if outcome in {Created, Updated, Ended} then
              c'.activeAircraft == aircraft % 18446744073709551616 && c'.activeFlights == flights % 18446744073709551616
            else c'.activeAircraft == c.activeAircraft && c'.activeFlights == c.activeFlights
  {
  }

  // ---- What Redis keeps of an aircraft's state

  /** The last state of the aircraft that was saved, unless it has been deleted since. */
  function LastSaved(w: World, events: seq<Event>, h: string, read: Reader): Option<StateRecord> {
    if events == [] then None
    else
      var front, e := events[..|events| - 1], events[|events| - 1];
      match Accepted(e, read)
      case None => LastSaved(w, front, h, read)
      case Some(s) =>
        if s.hexIdent != h then LastSaved(w, front, h, read)
        else if Ends(Run(w, front, read), e, read) && e.env.dropState.Took() then None
        else if e.env.cacheState.Took() then Some(s)
        else LastSaved(w, front, h, read)
  }

  /** Over any run, faults and restarts included, Redis holds the last saved state of an aircraft
      as it was parsed, never merged, and none after an ending whose delete took effect. */
  lemma {:induction false} RedisKeepsRawStates(w: World, events: seq<Event>, h: string, read: Reader)
    requires h !in w.states
    ensures var (w', last) := (Run(w, events, read), LastSaved(w, events, h, read));
            (h in w'.states <==> last.Some?) && (h in w'.states ==> w'.states[h] == last.value)
  {
    if events == [] {
    } else {
      var front, e := events[..|events| - 1], events[|events| - 1];
      RedisKeepsRawStates(w, front, h, read);
      SavedStep(Run(w, front, read), e, h, read);
    }
  }

  lemma SavedStep(w: World, e: Event, h: string, read: Reader)
    ensures var w' := EventStep(w, e, read);
            match Accepted(e, read)
            case None => w'.states == w.states
            case Some(s) =>
              if s.hexIdent != h then (h in w'.states <==> h in w.states) && (h in w.states ==> w'.states[h] == w.states[h])
              else if Ends(w, e, read) && e.env.dropState.Took() then h !in w'.states
              else if e.env.cacheState.Took() then h in w'.states && w'.states[h] == s
              else (h in w'.states <==> h in w.states) && (h in w.states ==> w'.states[h] == w.states[h])
  {
    if e.Restarted? {
      LoadedLeaves(w, e.listing, e.saves);
    } else if Accepted(e, read).Some? {
      FlightStates(CacheState(w, Accepted(e, read).value, e.env), Accepted(e, read).value, e.env);
      hide FlightStep;
    }
  }

  lemma FlightStates(w: World, s: StateRecord, env: Environment)
    ensures var (w', o) := FlightStep(w, s, env);
            w'.states == if o in {Ended, NotEnded} && env.dropState.Took() then w.states - {s.hexIdent} else w.states
  {
    hide Touched, Closed, Inserted;
  }

  // ---- Start with several rows of one aircraft

  ghost predicate LastOf(listing: seq<FlightRecord>, h: string, n: int) {
    0 <= n < |listing| && listing[n].hexIdent == h && forall k :: n < k < |listing| ==> listing[k].hexIdent != h
  }

  /** Whatever the rows and whatever Redis answers, exactly the listed aircraft become active, each
      with its last listed row, and nothing else is in memory. */
  lemma {:induction false} LoadedExactly(w: World, listing: seq<FlightRecord>, saves: nat -> Reply, h: string)
    ensures var w' := Loaded(w, listing, saves);
            && w'.cache == map[]
            && (h in w'.local <==> exists n :: LastOf(listing, h, n))
            && forall n :: LastOf(listing, h, n) ==> h in w'.local && w'.local[h] == listing[n]
  {
    if listing == [] {
    } else {
      var n := |listing| - 1;
      var front := listing[..n];
      LoadedExactly(w, front, saves, h);
      assert forall k :: 0 <= k < n ==> front[k] == listing[k];
      if listing[n].hexIdent == h {
        assert LastOf(listing, h, n);
      } else {
        assert forall k :: LastOf(listing, h, k) <==> LastOf(front, h, k);
      }
    }
  }

  /** Redis gets the listed flights whose save took effect, the last one of an aircraft winning, and
      keeps the rest. */
  lemma {:induction false} LoadedSaves(w: World, listing: seq<FlightRecord>, saves: nat -> Reply, h: string)
    ensures var w' := Loaded(w, listing, saves);
            if exists n :: SavedLast(listing, saves, h, n) then
              forall n :: SavedLast(listing, saves, h, n) ==> h in w'.flights && w'.flights[h] == listing[n]
            else (h in w'.flights <==> h in w.flights) && (h in w.flights ==> w'.flights[h] == w.flights[h])
  {
    if listing == [] {
    } else {
      var n := |listing| - 1;
      var front := listing[..n];
      LoadedSaves(w, front, saves, h);
      if listing[n].hexIdent == h && saves(n).Took() {
        assert SavedLast(listing, saves, h, n);
        assert forall k :: SavedLast(listing, saves, h, k) ==> k == n;
      } else {
        NotSavedLast(listing, saves, h);
      }
      hide SavedLast;
    }
  }

  lemma NotSavedLast(listing: seq<FlightRecord>, saves: nat -> Reply, h: string)
    requires listing != [] && !(listing[|listing| - 1].hexIdent == h && saves(|listing| - 1).Took())
    ensures var front := listing[..|listing| - 1];
            forall k :: SavedLast(listing, saves, h, k) <==> SavedLast(front, saves, h, k)
  {
    var n := |listing| - 1;
    var front := listing[..n];
    assert forall k :: 0 <= k < n ==> front[k] == listing[k];
  }

  ghost predicate SavedLast(listing: seq<FlightRecord>, saves: nat -> Reply, h: string, n: int) {
    && 0 <= n < |listing| && listing[n].hexIdent == h && saves(n).Took()
    && forall k :: n < k < |listing| && listing[k].hexIdent == h ==> !saves(k).Took()
  }
}
