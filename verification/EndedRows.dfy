/** Ended rows under faults (cmd/tracker/main.go): over any run, with any call failing in any
    way, a row that has ended stays as it ended unless some message closes a row while the
    flight that names it stays in Redis; and after such a message it need not. */
module EndedRows {
  import opened Wrappers
  import opened Types
  import opened Tracker
  import opened Sessions
  import opened History
  import opened Faults

  predicate IsEnded(rows: Rows, id: string) {
    id in rows && rows[id].endedAt.Some?
  }

  /** No flight record, local or in Redis, names an ended row. */
  ghost predicate Safe(w: World) {
    && (forall h :: h in w.local ==> !IsEnded(w.rows, w.local[h].sessionId))
    && (forall h :: h in w.flights ==> !IsEnded(w.rows, w.flights[h].sessionId))
  }

  /** The record an accepted state works on, if there is one. */
  function Used(w: World, s: StateRecord, env: Environment): Option<FlightRecord> {
    var fetched := Fetched(w, s.hexIdent, env);
    if fetched.Some? then fetched
    else if s.hexIdent in w.local then Some(w.local[s.hexIdent])
    else None
  }

  // ---- What one state does to the rows

  lemma StepRows(w: World, s: StateRecord, env: Environment)
    ensures StateStep(w, s, env).0.rows
         == if env.validation.Invalid? || !env.storeState.Done? then w.rows
            else
              match Used(w, s, env)
              case None => if env.createRow.Took() then Inserted(w.rows, NewFlight(s, env.newSession)) else w.rows
              case Some(f) =>
                if Stale(s, env.now) && env.closeRow.Took() then Closed(w.rows, Touched(f, s).(endedAt := s.timestamp))
                else w.rows
  {
    hide Inserted, Closed, Touched, NewFlight, Merge;
  }

  /** Closing a row that has not ended, or is not there, leaves the ended ones alone. */
  lemma ClosingUnended(rows: Rows, f: FlightRecord)
    requires !IsEnded(rows, f.sessionId)
    ensures RowsGrow(rows, Closed(rows, f))
  {
  }

  lemma UsedUnended(w: World, s: StateRecord, env: Environment)
    requires Safe(w) && "" !in w.rows && Used(w, s, env).Some?
    ensures !IsEnded(w.rows, Used(w, s, env).value.sessionId)
  {
  }

  lemma SafeStepGrows(w: World, s: StateRecord, env: Environment)
    requires Safe(w) && "" !in w.rows && env.newSession !in w.rows
    ensures RowsGrow(w.rows, StateStep(w, s, env).0.rows)
  {
    StepRows(w, s, env);
    InsertingGrows(w.rows, NewFlight(s, env.newSession));
    if Used(w, s, env).Some? {
      UsedUnended(w, s, env);
      var f := Touched(Used(w, s, env).value, s).(endedAt := s.timestamp);
      ClosingUnended(w.rows, f);
    }
    hide StateStep, Used, Safe, Inserted, Closed, RowsGrow;
  }

  /** A stale report of the aircraft with every call succeeding, and Redis asked or not. */
  function StaleReport(h: string, time: Time): StateRecord {
    BlankState(0, time).(hexIdent := h)
  }

  function Answering(fetched: bool, now: Time): Environment {
    Environment(Valid, Done, Done, fetched, false, Done, Done, Done, Done, Done, now, "")
  }

  lemma UnsafeRewrites(w: World, h: string, fetched: bool)
    requires if fetched then h in w.flights && IsEnded(w.rows, w.flights[h].sessionId)
             else h in w.local && IsEnded(w.rows, w.local[h].sessionId)
    ensures exists s: StateRecord, env: Environment :: env.newSession == "" && !RowsGrow(w.rows, StateStep(w, s, env).0.rows)
  {
    var id := if fetched then w.flights[h].sessionId else w.local[h].sessionId;
    var time := w.rows[id].endedAt.value + 1;
    var s, env := StaleReport(h, time), Answering(fetched, time + FIVE_MINUTES + 1);
    StepRows(w, s, env);
    var rows := StateStep(w, s, env).0.rows;
    hide StateStep;
    assert rows[id].endedAt == Some(time);
    assert !RowGrows(w.rows[id], rows[id]);
    assert !RowsGrow(w.rows, rows);
  }

  /** The exact condition at any moment: no next message can change an ended row, whatever fails,
      if and only if no record names one. */
  lemma SafeExactly(w: World)
    requires "" !in w.rows
    ensures Safe(w) <==> forall s: StateRecord, env: Environment :: env.newSession !in w.rows ==> RowsGrow(w.rows, StateStep(w, s, env).0.rows)
  {
    if Safe(w) {
      forall s: StateRecord, env: Environment | env.newSession !in w.rows ensures RowsGrow(w.rows, StateStep(w, s, env).0.rows) {
        SafeStepGrows(w, s, env);
      }
    } else if h :| h in w.local && IsEnded(w.rows, w.local[h].sessionId) {
      UnsafeRewrites(w, h, false);
    } else {
      var h :| h in w.flights && IsEnded(w.rows, w.flights[h].sessionId);
      UnsafeRewrites(w, h, true);
    }
  }

  // ---- What every message keeps, and the one kind that does not

  /** The record lies under its own key, and the row it names, if there is one, is open and its
      own aircraft's. */
  predicate TidyAt(rows: Rows, h: string, f: FlightRecord) {
    f.hexIdent == h && (f.sessionId in rows ==> rows[f.sessionId].hexIdent == h && rows[f.sessionId].endedAt.None?)
  }

  ghost predicate TidyRecords(rows: Rows, records: map<string, FlightRecord>) {
    forall h :: h in records ==> TidyAt(rows, h, records[h])
  }

  ghost predicate Tidy(w: World) {
    TidyRecords(w.rows, w.local) && TidyRecords(w.rows, w.flights) && "" !in w.rows
  }

  ghost predicate Unnamed(records: map<string, FlightRecord>, id: string) {
    forall h :: h in records ==> records[h].sessionId != id
  }

  /** A session id no row and no record has. */
  ghost predicate FreshId(w: World, id: string) {
    id != "" && id !in w.rows && Unnamed(w.local, id) && Unnamed(w.flights, id)
  }

  /** The message closes a row, and the flight that names the row stays in Redis. */
  predicate LeavesFlight(w: World, s: StateRecord, env: Environment) {
    && !env.validation.Invalid? && env.storeState.Done? && Stale(s, env.now)
    && env.closeRow.Took() && env.dropFlight.Refused?
    && var used := Used(w, s, env);
       && used.Some? && used.value.sessionId in w.rows
       && s.hexIdent in w.flights && w.flights[s.hexIdent].sessionId == used.value.sessionId
  }

  lemma TidyIsSafe(w: World)
    requires Tidy(w)
    ensures Safe(w)
  {
    forall h | h in w.local ensures !IsEnded(w.rows, w.local[h].sessionId) {
      assert TidyAt(w.rows, h, w.local[h]);
    }
    forall h | h in w.flights ensures !IsEnded(w.rows, w.flights[h].sessionId) {
      assert TidyAt(w.rows, h, w.flights[h]);
    }
  }

  lemma ConsistentIsTidy(w: World)
    requires Consistent(w) && "" !in w.rows
    ensures Tidy(w)
  {
    forall h | h in w.local ensures TidyAt(w.rows, h, w.local[h]) && TidyAt(w.rows, h, w.flights[h]) {
      assert InStep(w, h);
    }
    assert w.local.Keys == w.flights.Keys;
  }

  /** What one state does to the records. */
  lemma StepRecords(w: World, s: StateRecord, env: Environment)
    requires !env.validation.Invalid? && env.storeState.Done?
    ensures var (after, h) := (StateStep(w, s, env).0, s.hexIdent);
            match Used(w, s, env)
            case None =>
              && after.local == w.local[h := NewFlight(s, env.newSession)]
              && after.flights == (if env.saveFlight.Took() then w.flights[h := NewFlight(s, env.newSession)] else w.flights)
            case Some(f) =>
              if Stale(s, env.now) then
                && after.local == w.local - {h}
                && after.flights == (if env.dropFlight.Took() then w.flights - {h} else w.flights)
              else
                && after.local == (if Fetched(w, h, env).Some? then w.local else w.local[h := Touched(f, s)])
                && after.flights == (if env.saveFlight.Took() then w.flights[Touched(f, s).hexIdent := Touched(f, s)] else w.flights)
  {
    hide Inserted, Closed, Touched, NewFlight, Merge;
  }

  lemma InsertedTidy(rows: Rows, records: map<string, FlightRecord>, f: FlightRecord)
    requires TidyRecords(rows, records) && f.sessionId !in rows && Unnamed(records, f.sessionId)
    ensures TidyRecords(Inserted(rows, f), records)
  {
    forall h | h in records ensures TidyAt(Inserted(rows, f), h, records[h]) {
      assert TidyAt(rows, h, records[h]) && records[h].sessionId != f.sessionId;
    }
  }

  lemma StoredTidy(rows: Rows, records: map<string, FlightRecord>, h: string, f: FlightRecord)
    requires TidyRecords(rows, records) && TidyAt(rows, h, f)
    ensures TidyRecords(rows, records[h := f])
  {
    var stored := records[h := f];
    forall g | g in stored ensures TidyAt(rows, g, stored[g]) {
      if g != h {
        assert TidyAt(rows, g, records[g]);
      }
    }
  }

  /** Closing a row of `h` concerns no record of another aircraft. */
  lemma ClosedTidy(rows: Rows, records: map<string, FlightRecord>, h: string, f: FlightRecord)
    requires TidyRecords(rows, records) && TidyAt(rows, h, f)
    ensures TidyRecords(Closed(rows, f), records)
       <==> !(h in records && f.sessionId in rows && records[h].sessionId == f.sessionId)
  {
    var closed := Closed(rows, f);
    if h in records && f.sessionId in rows && records[h].sessionId == f.sessionId {
      assert IsEnded(closed, records[h].sessionId) && !TidyAt(closed, h, records[h]);
    } else {
      forall g | g in records ensures TidyAt(closed, g, records[g]) {
        assert TidyAt(rows, g, records[g]);
      }
    }
  }

  lemma RemovedTidy(rows: Rows, records: map<string, FlightRecord>, h: string)
    requires TidyRecords(rows, records)
    ensures TidyRecords(rows, records - {h})
  {
    var rest := records - {h};
    forall g | g in rest ensures TidyAt(rows, g, rest[g]) {
      assert TidyAt(rows, g, records[g]);
    }
  }

  lemma UsedTidy(w: World, s: StateRecord, env: Environment)
    requires Tidy(w) && Used(w, s, env).Some?
    ensures var f := Used(w, s, env).value;
            TidyAt(w.rows, f.hexIdent, f) && (f.hexIdent == s.hexIdent || f.sessionId !in w.rows)
  {
    var h := s.hexIdent;
    if Fetched(w, h, env).Some? && h in w.flights {
      assert TidyAt(w.rows, h, w.flights[h]);
    } else if Fetched(w, h, env).None? {
      assert TidyAt(w.rows, h, w.local[h]);
    }
  }

  lemma OpeningTidy(w: World, s: StateRecord, env: Environment)
    requires Tidy(w) && FreshId(w, env.newSession) && !env.validation.Invalid? && env.storeState.Done?
    requires Used(w, s, env).None?
    ensures Tidy(StateStep(w, s, env).0)
  {
    StepRows(w, s, env);
    StepRecords(w, s, env);
    var f, after := NewFlight(s, env.newSession), StateStep(w, s, env).0;
    InsertedTidy(w.rows, w.local, f);
    InsertedTidy(w.rows, w.flights, f);
    assert TidyAt(after.rows, s.hexIdent, f);
    hide StateStep, Used, Inserted, NewFlight, TidyAt;
    StoredTidy(after.rows, w.local, s.hexIdent, f);
    StoredTidy(after.rows, w.flights, s.hexIdent, f);
  }

  lemma UpdateTidy(w: World, s: StateRecord, env: Environment)
    requires Tidy(w) && !env.validation.Invalid? && env.storeState.Done?
    requires Used(w, s, env).Some? && !Stale(s, env.now)
    ensures Tidy(StateStep(w, s, env).0)
  {
    StepRows(w, s, env);
    StepRecords(w, s, env);
    UsedTidy(w, s, env);
    var f := Touched(Used(w, s, env).value, s);
    assert f.hexIdent == Used(w, s, env).value.hexIdent && TidyAt(w.rows, f.hexIdent, f);
    if Fetched(w, s.hexIdent, env).None? {
      assert TidyAt(w.rows, s.hexIdent, w.local[s.hexIdent]);
      StoredTidy(w.rows, w.local, s.hexIdent, f);
    }
    StoredTidy(w.rows, w.flights, f.hexIdent, f);
  }

  /** The ending itself: the local record goes, and the Redis record goes if it can. */
  lemma EndingTidyExactly(w: World, s: StateRecord, env: Environment)
    requires Tidy(w) && !env.validation.Invalid? && env.storeState.Done?
    requires Used(w, s, env).Some? && Stale(s, env.now)
    ensures Tidy(StateStep(w, s, env).0) <==> !LeavesFlight(w, s, env)
  {
    StepRows(w, s, env);
    StepRecords(w, s, env);
    UsedTidy(w, s, env);
    var used, after := Used(w, s, env).value, StateStep(w, s, env).0;
    var f := Touched(used, s).(endedAt := s.timestamp);
    assert f.sessionId == used.sessionId && TidyAt(w.rows, f.hexIdent, f) && f.hexIdent == used.hexIdent;
    RemovedTidy(w.rows, w.local, s.hexIdent);
    RemovedTidy(w.rows, w.flights, s.hexIdent);
    if used.sessionId !in w.rows || !env.closeRow.Took() {
      assert after.rows == w.rows;
    } else {
      ClosedTidy(w.rows, after.local, s.hexIdent, f);
      ClosedTidy(w.rows, after.flights, s.hexIdent, f);
    }
  }

  /** The exact condition, per message: what tidiness promises survives, whatever fails, if and
      only if the message does not leave a flight behind the row it closes; and if it does, a
      record names an ended row, so that some next message rewrites it. */
  lemma StepTidyExactly(w: World, s: StateRecord, env: Environment)
    requires Tidy(w) && FreshId(w, env.newSession)
    ensures Tidy(StateStep(w, s, env).0) <==> !LeavesFlight(w, s, env)
    ensures Safe(StateStep(w, s, env).0) <==> !LeavesFlight(w, s, env)
  {
    StepTidy(w, s, env);
    if LeavesFlight(w, s, env) {
      StepRows(w, s, env);
      StepRecords(w, s, env);
      assert IsEnded(StateStep(w, s, env).0.rows, w.flights[s.hexIdent].sessionId);
    } else {
      TidyIsSafe(StateStep(w, s, env).0);
    }
  }

  lemma StepTidy(w: World, s: StateRecord, env: Environment)
    requires Tidy(w) && FreshId(w, env.newSession)
    ensures Tidy(StateStep(w, s, env).0) <==> !LeavesFlight(w, s, env)
  {
    if env.validation.Invalid? || !env.storeState.Done? {
      StepRows(w, s, env);
    } else if Used(w, s, env).None? {
      OpeningTidy(w, s, env);
    } else if Stale(s, env.now) {
      EndingTidyExactly(w, s, env);
    } else {
      UpdateTidy(w, s, env);
    }
  }

  /** From views in step, where the record used and the one left behind are of one session. */
  lemma StepSafeExactly(w: World, s: StateRecord, env: Environment)
    requires Consistent(w) && "" !in w.rows && env.newSession !in w.rows && env.newSession != "" && !env.validation.Invalid?
    ensures Safe(StateStep(w, s, env).0)
       <==> !(env.storeState.Done? && s.hexIdent in w.local && Stale(s, env.now)
              && env.closeRow.Took() && env.dropFlight.Refused?)
  {
    ConsistentIsTidy(w);
    ConsistentFresh(w, env.newSession);
    StepTidyExactly(w, s, env);
    if s.hexIdent in w.local {
      assert InStep(w, s.hexIdent);
    }
    assert s.hexIdent in w.flights.Keys <==> s.hexIdent in w.local.Keys;
  }

  lemma ConsistentFresh(w: World, id: string)
    requires Consistent(w) && id !in w.rows && id != ""
    ensures FreshId(w, id)
  {
    forall h | h in w.local ensures w.local[h].sessionId != id && w.flights[h].sessionId != id {
      assert InStep(w, h);
    }
    assert w.local.Keys == w.flights.Keys;
  }

  // ---- Whole runs

  /** Whatever its saves do, and however many rows an aircraft has open, a restart is tidy if the
      records Redis kept are. */
  lemma {:induction false} LoadedTidy(w: World, listing: seq<FlightRecord>, saves: nat -> Reply)
    requires TidyRecords(w.rows, w.flights) && "" !in w.rows
    requires forall f :: f in listing ==> TidyAt(w.rows, f.hexIdent, f)
    ensures Tidy(Loaded(w, listing, saves)) && Loaded(w, listing, saves).rows == w.rows
  {
    if listing == [] {
    } else {
      var n := |listing| - 1;
      var f, before := listing[n], Loaded(w, listing[..n], saves);
      LoadedTidy(w, listing[..n], saves);
      assert f in listing;
      StoredTidy(w.rows, before.local, f.hexIdent, f);
      StoredTidy(w.rows, before.flights, f.hexIdent, f);
    }
  }

  lemma ListingTidy(listing: seq<FlightRecord>, rows: Rows)
    requires Lists(listing, rows)
    ensures forall f :: f in listing ==> TidyAt(rows, f.hexIdent, f)
  {
  }

  /** Any message with any failures and a fresh session id; any restart that lists the open rows. */
  ghost predicate Ordinary(w: World, e: Event, read: Reader) {
    match e
    case Heard(_, env) => Accepted(e, read).Some? ==> FreshId(w, env.newSession)
    case Restarted(listing, _) => Lists(listing, w.rows)
  }

  ghost predicate OrdinaryRun(w: World, events: seq<Event>, read: Reader) {
    forall n :: 0 <= n < |events| ==> Ordinary(Run(w, events[..n], read), events[n], read)
  }

  predicate EventLeavesFlight(w: World, e: Event, read: Reader) {
    Accepted(e, read).Some? && LeavesFlight(w, Accepted(e, read).value, e.env)
  }

  /** No message of the run leaves a flight behind the row it closes. */
  ghost predicate NoneLeft(w: World, events: seq<Event>, read: Reader) {
    forall n :: 0 <= n < |events| ==> !EventLeavesFlight(Run(w, events[..n], read), events[n], read)
  }

  lemma RunFront(w: World, events: seq<Event>, read: Reader)
    requires OrdinaryRun(w, events, read) && events != []
    ensures var front, e := events[..|events| - 1], events[|events| - 1];
            && OrdinaryRun(w, front, read) && Ordinary(Run(w, front, read), e, read)
            && (NoneLeft(w, events, read) ==> NoneLeft(w, front, read) && !EventLeavesFlight(Run(w, front, read), e, read))
  {
    var front := events[..|events| - 1];
    forall n | 0 <= n < |front|
      ensures Ordinary(Run(w, front[..n], read), front[n], read)
      ensures NoneLeft(w, events, read) ==> !EventLeavesFlight(Run(w, front[..n], read), front[n], read)
    {
      assert front[..n] == events[..n] && front[n] == events[n];
    }
  }

  /** One event: the ended rows stay in any case, tidiness exactly if no flight is left. */
  lemma EventTidyExactly(w: World, e: Event, read: Reader)
    requires Tidy(w) && Ordinary(w, e, read)
    ensures Tidy(EventStep(w, e, read)) <==> !EventLeavesFlight(w, e, read)
    ensures RowsGrow(w.rows, EventStep(w, e, read).rows)
  {
    TidyIsSafe(w);
    if Accepted(e, read).Some? {
      StepTidyExactly(w, Accepted(e, read).value, e.env);
      SafeStepGrows(w, Accepted(e, read).value, e.env);
    } else if e.Restarted? {
      ListingTidy(e.listing, w.rows);
      LoadedTidy(w, e.listing, e.saves);
    }
  }

  lemma {:induction false} RunTidy(w: World, events: seq<Event>, read: Reader)
    requires Tidy(w) && OrdinaryRun(w, events, read) && NoneLeft(w, events, read)
    ensures Tidy(Run(w, events, read))
  {
    if events == [] {
    } else {
      RunFront(w, events, read);
      RunTidy(w, events[..|events| - 1], read);
      EventTidyExactly(Run(w, events[..|events| - 1], read), events[|events| - 1], read);
    }
  }

  /** Over whole runs with any faults and any restarts, rows only grow between any two moments,
      unless some message before the last leaves a flight behind the row it closes: no row is
      lost, none changes its identity, and an ended row stays exactly as it ended. */
  lemma {:induction false} AnyFaultsFrozen(w: World, events: seq<Event>, n: nat, read: Reader)
    requires Tidy(w) && OrdinaryRun(w, events, read) && n <= |events|
    requires events != [] ==> NoneLeft(w, events[..|events| - 1], read)
    ensures RowsGrow(Run(w, events[..n], read).rows, Run(w, events, read).rows)
  {
    if n == |events| {
      assert events[..n] == events;
    } else {
      var front, e := events[..|events| - 1], events[|events| - 1];
      RunFront(w, events, read);
      if front != [] {
        RunFront(w, front, read);
      }
      AnyFaultsFrozen(w, front, n, read);
      assert front[..n] == events[..n];
      RunTidy(w, front, read);
      EventTidyExactly(Run(w, front, read), e, read);
      hide EventStep, Tidy, Ordinary;
    }
  }

  ghost predicate AlwaysSafe(w: World, events: seq<Event>, read: Reader) {
    forall n :: 0 <= n <= |events| ==> Safe(Run(w, events[..n], read))
  }

  lemma AlwaysSafeSnoc(w: World, events: seq<Event>, read: Reader)
    requires events != []
    ensures AlwaysSafe(w, events, read) <==> AlwaysSafe(w, events[..|events| - 1], read) && Safe(Run(w, events, read))
  {
    hide Safe, Run;
    var front := events[..|events| - 1];
    assert events[..|events|] == events;
    assert forall n :: 0 <= n <= |front| ==> front[..n] == events[..n];
    forall n | 0 <= n <= |events| && AlwaysSafe(w, front, read) && Safe(Run(w, events, read))
      ensures Safe(Run(w, events[..n], read))
    {
      if n <= |front| {
        assert front[..n] == events[..n];
      }
    }
    forall n | 0 <= n <= |front| && AlwaysSafe(w, events, read) ensures Safe(Run(w, front[..n], read)) {
      assert front[..n] == events[..n];
    }
  }

  lemma NoneLeftSnoc(w: World, events: seq<Event>, read: Reader)
    requires events != []
    ensures var front, e := events[..|events| - 1], events[|events| - 1];
            NoneLeft(w, events, read) <==> NoneLeft(w, front, read) && !EventLeavesFlight(Run(w, front, read), e, read)
  {
    hide EventLeavesFlight, Run;
    var front := events[..|events| - 1];
    forall n | 0 <= n < |front| ensures front[..n] == events[..n] && front[n] == events[n] {}
    if NoneLeft(w, front, read) && !EventLeavesFlight(Run(w, front, read), events[|events| - 1], read) {
      forall n | 0 <= n < |events| ensures !EventLeavesFlight(Run(w, events[..n], read), events[n], read) {
        assert n < |front| ==> front[..n] == events[..n] && front[n] == events[n];
      }
    }
  }

  lemma EventSafeExactly(w: World, e: Event, read: Reader)
    requires Tidy(w) && Ordinary(w, e, read)
    ensures Safe(EventStep(w, e, read)) <==> !EventLeavesFlight(w, e, read)
  {
    EventTidyExactly(w, e, read);
    if EventLeavesFlight(w, e, read) {
      StepTidyExactly(w, Accepted(e, read).value, e.env);
    } else {
      TidyIsSafe(EventStep(w, e, read));
    }
  }

  /** The exact condition for whole runs: at no moment of a run can a next message change an ended
      row, whatever fails, if and only if no message of the run leaves a flight behind the row it
      closes. */
  lemma {:induction false} RunSafeExactly(w: World, events: seq<Event>, read: Reader)
    requires Tidy(w) && OrdinaryRun(w, events, read)
    ensures AlwaysSafe(w, events, read) <==> NoneLeft(w, events, read)
  {
    if events == [] {
      TidyIsSafe(w);
    } else {
      var front, e := events[..|events| - 1], events[|events| - 1];
      RunFront(w, events, read);
      RunSafeExactly(w, front, read);
      AlwaysSafeSnoc(w, events, read);
      NoneLeftSnoc(w, events, read);
      if NoneLeft(w, front, read) {
        RunTidy(w, front, read);
        EventSafeExactly(Run(w, front, read), e, read);
      }
      hide Safe, Tidy, AlwaysSafe, NoneLeft, EventLeavesFlight, EventStep;
    }
  }

  /** The smallest such run: after a refused DeleteFlight the flight is still in Redis, and the
      next stale report of the aircraft ends the ended row again. */
  lemma RefusedDeleteRewrites(w: World, s: StateRecord, env: Environment, again: StateRecord, later: Environment)
    requires Consistent(w) && s.hexIdent in w.local && Stale(s, env.now) && !env.validation.Invalid?
    requires env.storeState.Done? && env.fetched && env.dropFlight.Refused? && env.closeRow.Done?
    requires again.hexIdent == s.hexIdent && Stale(again, later.now) && FaultFree(later) && !later.validation.Invalid?
    ensures var id := w.local[s.hexIdent].sessionId;
            var first := StateStep(w, s, env).0;
            var (second, outcome) := StateStep(first, again, later);
            && id in first.rows && first.rows[id].endedAt == Some(s.timestamp)
            && outcome == Ended && id in second.rows && second.rows[id].endedAt == Some(again.timestamp)
            && (again.timestamp != s.timestamp ==> second.rows[id] != first.rows[id] && !RowsGrow(first.rows, second.rows))
  {
    OneSession(w, s.hexIdent);
    assert InStep(w, s.hexIdent);
    var f := Touched(w.flights[s.hexIdent], s);
    var first := StateStep(w, s, env).0;
    assert first == EndSession(CacheState(w, s, env), f, s, env).0;
    assert first.flights == w.flights;
    var second := EndSession(CacheState(first, again, later), Touched(w.flights[s.hexIdent], again), again, later);
    assert StateStep(first, again, later) == second;
    var id := w.local[s.hexIdent].sessionId;
    if again.timestamp != s.timestamp {
      assert !RowGrows(first.rows[id], second.0.rows[id]);
    }
  }
}
