/** The documented maximum altitude and speed of a session, and what the database row holds
    (cmd/tracker/main.go): the row forgets the message that opened the session and, after a
    restart, everything before it. */
module Peaks {
  import opened Types
  import opened Tracker
  import opened Sessions
  import opened History

  /** Every report of the open session, the one that opened it first, across restarts. */
  function SinceOpened(a: Aircraft, signals: seq<Signal>): seq<StateRecord> {
    if signals == [] then []
    else
      var front, signal := signals[..|signals| - 1], signals[|signals| - 1];
      match signal
      case Reboot => SinceOpened(a, front)
      case Report(s, now, _) =>
        if AircraftRun(a, front).open.None? then [s]
        else if Stale(s, now) then []
        else SinceOpened(a, front) + [s]
  }

  /** What the record counts is the end of that, and it always lacks the beginning. */
  lemma {:induction false} ReportsEndIt(a: Aircraft, signals: seq<Signal>)
    requires a.open.None?
    ensures var all, counted, opener := SinceOpened(a, signals), Reports(a, signals), Opener(a, signals);
            if AircraftRun(a, signals).open.None? then all == [] && counted == []
            else
              && |counted| < |all| && all[|all| - |counted|..] == counted
              && opener.Some? && opener.value.Report? && all[0] == opener.value.state
  {
    if signals == [] {
    } else {
      ReportsEndIt(a, signals[..|signals| - 1]);
    }
  }

  /** The reports an open session has had that its record does not count: the opening one and,
      if there was a restart, all before it. */
  function Forgotten(a: Aircraft, signals: seq<Signal>): seq<StateRecord> {
    var all, counted := SinceOpened(a, signals), Reports(a, signals);
    if |counted| <= |all| then all[..|all| - |counted|] else []
  }

  ghost predicate Covers(r: Row, states: seq<StateRecord>) {
    forall s :: s in states ==> s.altitude <= r.maxAltitude && !s.groundSpeed.Above(r.maxGroundSpeed)
  }

  lemma CoversConcat(r: Row, a: seq<StateRecord>, b: seq<StateRecord>)
    ensures Covers(r, a + b) <==> Covers(r, a) && Covers(r, b)
  {
    if Covers(r, a + b) {
      forall s | s in a ensures s in a + b {}
      forall s | s in b ensures s in a + b {}
    }
  }

  /** The row of a session that a stale report ends holds the session's true peaks if and only if
      no forgotten report exceeds them, the opening one always being forgotten. */
  lemma RowHoldsSessionPeaksExactly(w: World, events: seq<Event>, h: string, read: Reader, s: StateRecord, env: Environment)
    requires Consistent(w) && HealthyRun(w, events, read) && h !in w.local
    requires FaultFree(env) && !env.validation.Invalid? && s.hexIdent == h && Stale(s, env.now)
    ensures var before, a, signals := Run(w, events, read), Project(w, h), Signals(events, h, read);
            h in before.local ==>
              (var id := before.local[h].sessionId;
               var after := StateStep(before, s, env).0;
               && id in after.rows && Covers(after.rows[id], Reports(a, signals) + [s])
               && SinceOpened(a, signals) == Forgotten(a, signals) + Reports(a, signals)
               && Forgotten(a, signals) != [] && Opener(a, signals).Some? && Opener(a, signals).value.Report?
               && Forgotten(a, signals)[0] == Opener(a, signals).value.state
               && (Covers(after.rows[id], SinceOpened(a, signals) + [s]) <==> Covers(after.rows[id], Forgotten(a, signals))))
  {
    var before, a, signals := Run(w, events, read), Project(w, h), Signals(events, h, read);
    if h in before.local {
      EndedRowCovers(w, events, h, read, s, env);
      SessionPieces(w, events, h, read);
      hide StateStep, Run, Consistent, HealthyRun, SinceOpened, Reports, Opener, Forgotten, Covers, Project, Signals;
      var row := StateStep(before, s, env).0.rows[before.local[h].sessionId];
      var counted, forgotten := Reports(a, signals), Forgotten(a, signals);
      assert forgotten + counted + [s] == forgotten + (counted + [s]);
      CoversConcat(row, forgotten, counted + [s]);
    }
  }

  lemma EndedRowCovers(w: World, events: seq<Event>, h: string, read: Reader, s: StateRecord, env: Environment)
    requires Consistent(w) && HealthyRun(w, events, read) && h !in w.local && h in Run(w, events, read).local
    requires FaultFree(env) && !env.validation.Invalid? && s.hexIdent == h && Stale(s, env.now)
    ensures var before := Run(w, events, read);
            var (id, after) := (before.local[h].sessionId, StateStep(before, s, env).0);
            id in after.rows && Covers(after.rows[id], Reports(Project(w, h), Signals(events, h, read)) + [s])
  {
    EndedRowHoldsPeaks(w, events, h, read, s, env);
    hide StateStep, Run, Consistent, HealthyRun, Reports, Signals;
  }

  lemma SessionPieces(w: World, events: seq<Event>, h: string, read: Reader)
    requires Consistent(w) && HealthyRun(w, events, read)
    ensures var a, signals := Project(w, h), Signals(events, h, read);
            h !in w.local && h in Run(w, events, read).local ==>
              && SinceOpened(a, signals) == Forgotten(a, signals) + Reports(a, signals)
              && Forgotten(a, signals) != [] && Opener(a, signals).Some? && Opener(a, signals).value.Report?
              && Forgotten(a, signals)[0] == Opener(a, signals).value.state
  {
    RunConsistent(w, events, read);
    TrackerRefinesAircraft(w, events, h, read);
    if h !in w.local && h in Run(w, events, read).local {
      assert h in Run(w, events, read).flights.Keys;
      Pieces(Project(w, h), Signals(events, h, read));
    }
    hide Run, Consistent, HealthyRun, AircraftRun, SinceOpened, Reports, Opener, Forgotten;
  }

  lemma Pieces(a: Aircraft, signals: seq<Signal>)
    requires a.open.None? && AircraftRun(a, signals).open.Some?
    ensures SinceOpened(a, signals) == Forgotten(a, signals) + Reports(a, signals)
    ensures Forgotten(a, signals) != [] && Opener(a, signals).Some? && Opener(a, signals).value.Report?
    ensures Forgotten(a, signals)[0] == Opener(a, signals).value.state
  {
    ReportsEndIt(a, signals);
    hide AircraftRun, SinceOpened, Reports, Opener;
  }
}
