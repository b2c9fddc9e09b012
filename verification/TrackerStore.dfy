/** The tracker over the concrete Redis client: what Tracker.dfy says of two maps behind an
    interface (cmd/tracker/main.go) is what happens to the one flat store of KeyStore.dfy
    (internal/redis/client.go), through the operations the tracker issues. */
module TrackerStore {
  import opened Wrappers
  import opened Types
  import opened Tracker
  import opened Sessions
  import Parser
  import K = KeyStore

  function Took(reply: Reply, op: K.Operation): seq<K.Operation> {
    if reply.Took() then [op] else []
  }

  /** The writes one accepted state causes, those that take effect, in the order issued. */
  function Issued(w: World, s: StateRecord, env: Environment): seq<K.Operation> {
    Took(env.cacheState, K.StoreState(s))
    + if !env.storeState.Done? then [] else IssuedByFlight(w, s, env)
  }

  function IssuedByFlight(w: World, s: StateRecord, env: Environment): seq<K.Operation> {
    var fetched := Fetched(w, s.hexIdent, env);
    if fetched.None? && s.hexIdent !in w.local then
      Took(env.saveFlight, K.StoreFlight(NewFlight(s, env.newSession)))
    else if Stale(s, env.now) then
      Took(env.dropFlight, K.DeleteFlight(s.hexIdent)) + Took(env.dropState, K.DeleteState(s.hexIdent))
    else
      Took(env.saveFlight, K.StoreFlight(Touched(if fetched.Some? then fetched.value else w.local[s.hexIdent], s)))
  }

  function MapsOf(w: World, validations: map<string, bool>): K.Maps {
    K.Maps(w.flights, w.states, validations)
  }

  lemma {:induction false} TwoMapSteps(m: K.Maps, first: seq<K.Operation>, second: seq<K.Operation>)
    ensures K.ApplyAllToMaps(m, first + second) == K.ApplyAllToMaps(K.ApplyAllToMaps(m, first), second)
  {
    if second == [] {
      assert first + second == first;
    } else {
      var n := |second| - 1;
      TwoMapSteps(m, first, second[..n]);
      assert (first + second)[..|first| + n] == first + second[..n];
    }
  }

  lemma TookStep(m: K.Maps, reply: Reply, op: K.Operation)
    ensures K.ApplyAllToMaps(m, Took(reply, op)) == if reply.Took() then K.ApplyToMaps(m, op) else m
  {
    if reply.Took() {
      assert [op][..0] == [];
    }
  }

  lemma FlightIssues(w: World, s: StateRecord, env: Environment, v: map<string, bool>)
    ensures K.ApplyAllToMaps(MapsOf(w, v), IssuedByFlight(w, s, env)) == MapsOf(FlightStep(w, s, env).0, v)
  {
    var m := MapsOf(w, v);
    var fetched := Fetched(w, s.hexIdent, env);
    if fetched.None? && s.hexIdent !in w.local {
      TookStep(m, env.saveFlight, K.StoreFlight(NewFlight(s, env.newSession)));
    } else if Stale(s, env.now) {
      TwoMapSteps(m, Took(env.dropFlight, K.DeleteFlight(s.hexIdent)), Took(env.dropState, K.DeleteState(s.hexIdent)));
      TookStep(m, env.dropFlight, K.DeleteFlight(s.hexIdent));
      var m' := K.ApplyAllToMaps(m, Took(env.dropFlight, K.DeleteFlight(s.hexIdent)));
      TookStep(m', env.dropState, K.DeleteState(s.hexIdent));
    } else {
      TookStep(m, env.saveFlight, K.StoreFlight(Touched(if fetched.Some? then fetched.value else w.local[s.hexIdent], s)));
    }
  }

  lemma StateIssues(w: World, s: StateRecord, env: Environment, v: map<string, bool>)
    requires !env.validation.Invalid?
    ensures K.ApplyAllToMaps(MapsOf(w, v), Issued(w, s, env)) == MapsOf(StateStep(w, s, env).0, v)
  {
    var w' := CacheState(w, s, env);
    TookStep(MapsOf(w, v), env.cacheState, K.StoreState(s));
    assert K.ApplyAllToMaps(MapsOf(w, v), Took(env.cacheState, K.StoreState(s))) == MapsOf(w', v);
    if env.storeState.Done? {
      TwoMapSteps(MapsOf(w, v), Took(env.cacheState, K.StoreState(s)), IssuedByFlight(w, s, env));
      FlightIssues(w', s, env, v);
      assert IssuedByFlight(w', s, env) == IssuedByFlight(w, s, env);
    } else {
      assert Issued(w, s, env) == Took(env.cacheState, K.StoreState(s));
    }
  }

  /** While the flat store stands for the tracker's Redis, it does so after the writes of any
      accepted state, whatever fails; and what the concrete client reads from it is what the
      tracker is taken to fetch. */
  lemma TrackerRunsOnFlatStore(store: K.Store, w: World, s: StateRecord, env: Environment, v: map<string, bool>, h: string)
    requires K.Represents(store, MapsOf(w, v)) && !env.validation.Invalid?
    ensures K.Represents(K.ApplyAll(store, Issued(w, s, env)), MapsOf(StateStep(w, s, env).0, v))
    ensures env.fetched && env.missIsZero ==> K.ReadFlight(store, h) == Ok(Fetched(w, h, env).value)
  {
    K.FlatStoreRefinesMaps(store, MapsOf(w, v), Issued(w, s, env), h);
    K.FlatStoreRefinesMaps(store, MapsOf(w, v), [], h);
    StateIssues(w, s, env, v);
  }

  /** What the tracker is told about a flight when the validation is read from the store. */
  function ReadFromStore(store: K.Store, h: string): Validation {
    if K.ReadValidation(store, h) then Valid else Invalid
  }

  /** The tracker itself never validates: over the concrete client a state is skipped unless
      something else has marked its aircraft valid, and the tracker's own writes never change that. */
  lemma SkippedUnlessValidated(store: K.Store, w: World, s: StateRecord, env: Environment, v: map<string, bool>, h: string)
    requires K.Represents(store, MapsOf(w, v)) && env.validation == ReadFromStore(store, s.hexIdent)
    ensures StateStep(w, s, env).1 == Skipped <==> !(s.hexIdent in v && v[s.hexIdent])
    ensures env.validation.Valid? ==> ReadFromStore(K.ApplyAll(store, Issued(w, s, env)), h) == ReadFromStore(store, h)
  {
    K.FlatStoreRefinesMaps(store, MapsOf(w, v), [], s.hexIdent);
    K.FlatStoreRefinesMaps(store, MapsOf(w, v), [], h);
    if env.validation.Valid? {
      TrackerRunsOnFlatStore(store, w, s, env, v, h);
      K.FlatStoreRefinesMaps(store, MapsOf(w, v), Issued(w, s, env), h);
      StateIssues(w, s, env, v);
      NotSkipped(w, s, env);
    }
  }

  lemma NotSkipped(w: World, s: StateRecord, env: Environment)
    requires !env.validation.Invalid?
    ensures StateStep(w, s, env).1 != Skipped
  {
    assert FlightStep(CacheState(w, s, env), s, env).1 != Skipped;
  }

  // ---- Whole runs

  /** What Start writes. */
  function StartIssues(listing: seq<FlightRecord>, saves: nat -> Reply): seq<K.Operation> {
    if listing == [] then []
    else
      var n := |listing| - 1;
      StartIssues(listing[..n], saves) + Took(saves(n), K.StoreFlight(listing[n]))
  }

  function EventIssues(w: World, e: Event, read: Reader): seq<K.Operation> {
    match e
    case Restarted(listing, saves) => StartIssues(listing, saves)
    case Heard(_, env) =>
      match Accepted(e, read)
      case Some(s) => Issued(w, s, env)
      case None => []
  }

  function RunIssues(w: World, events: seq<Event>, read: Reader): seq<K.Operation> {
    if events == [] then []
    else
      var front, e := events[..|events| - 1], events[|events| - 1];
      RunIssues(w, front, read) + EventIssues(Run(w, front, read), e, read)
  }

  lemma {:induction false} StartIssued(w: World, listing: seq<FlightRecord>, saves: nat -> Reply, v: map<string, bool>)
    ensures K.ApplyAllToMaps(MapsOf(w, v), StartIssues(listing, saves)) == MapsOf(Loaded(w, listing, saves), v)
  {
    LoadedLeaves(w, listing, saves);
    if listing == [] {
    } else {
      var n := |listing| - 1;
      StartIssued(w, listing[..n], saves, v);
      var before := MapsOf(Loaded(w, listing[..n], saves), v);
      LoadedLeaves(w, listing[..n], saves);
      TwoMapSteps(MapsOf(w, v), StartIssues(listing[..n], saves), Took(saves(n), K.StoreFlight(listing[n])));
      TookStep(before, saves(n), K.StoreFlight(listing[n]));
    }
  }

  lemma EventIssued(w: World, e: Event, v: map<string, bool>, read: Reader)
    ensures K.ApplyAllToMaps(MapsOf(w, v), EventIssues(w, e, read)) == MapsOf(EventStep(w, e, read), v)
  {
    if e.Restarted? {
      StartIssued(w, e.listing, e.saves, v);
    } else if Accepted(e, read).Some? {
      StateIssues(w, Accepted(e, read).value, e.env, v);
    }
  }

  lemma {:induction false} RunIssued(w: World, events: seq<Event>, v: map<string, bool>, read: Reader)
    ensures K.ApplyAllToMaps(MapsOf(w, v), RunIssues(w, events, read)) == MapsOf(Run(w, events, read), v)
  {
    if events == [] {
    } else {
      var front, e := events[..|events| - 1], events[|events| - 1];
      RunIssued(w, front, v, read);
      EventIssued(Run(w, front, read), e, v, read);
      TwoMapSteps(MapsOf(w, v), RunIssues(w, front, read), EventIssues(Run(w, front, read), e, read));
    }
  }

  function StoreAfter(store: K.Store, w: World, events: seq<Event>, read: Reader): K.Store {
    K.ApplyAll(store, RunIssues(w, events, read))
  }

  /** Over every run, faults and restarts included, the flat store stands for the tracker's Redis,
      and what the concrete client reads from it is what the tracker is taken to fetch. */
  lemma RunOnFlatStore(store: K.Store, w: World, events: seq<Event>, v: map<string, bool>, h: string, read: Reader)
    requires K.Represents(store, MapsOf(w, v))
    ensures var (after, w') := (StoreAfter(store, w, events, read), Run(w, events, read));
            && K.Represents(after, MapsOf(w', v))
            && K.ReadFlight(after, h) == Ok(if h in w'.flights then w'.flights[h] else BLANK_FLIGHT)
            && K.ReadState(after, h) == Ok(if h in w'.states then w'.states[h] else BlankState(0, NO_TIME))
            && K.ReadValidation(after, h) == (h in v && v[h])
  {
    RunIssued(w, events, v, read);
    K.FlatStoreRefinesMaps(store, MapsOf(w, v), RunIssues(w, events, read), h);
  }

  /** Every message's validation is what the concrete client reads at that moment. */
  ghost predicate ValidatedByStore(store: K.Store, w: World, events: seq<Event>, read: Reader) {
    forall n :: 0 <= n < |events| ==> AsksStore(StoreAfter(store, w, events[..n], read), events[n], read)
  }

  predicate AsksStore(store: K.Store, e: Event, read: Reader) {
    e.Heard? ==>
      match Parser.Parse(e.msg.raw, e.msg.timestamp, read)
      case Ok(s) => e.env.validation == ReadFromStore(store, s.hexIdent)
      case Err(_) => true
  }

  /** A readable message about an aircraft marked valid. */
  predicate AboutValid(e: Event, v: map<string, bool>, read: Reader) {
    e.Heard? &&
    match Parser.Parse(e.msg.raw, e.msg.timestamp, read)
    case Ok(s) => s.hexIdent in v && v[s.hexIdent]
    case Err(_) => false
  }

  /** No run changes who is valid, so a message of a run is accepted exactly if its aircraft was
      marked valid before the run. */
  lemma AcceptedIfValid(store: K.Store, w: World, events: seq<Event>, n: nat, v: map<string, bool>, read: Reader)
    requires K.Represents(store, MapsOf(w, v)) && ValidatedByStore(store, w, events, read) && n < |events|
    ensures Accepted(events[n], read).Some? <==> AboutValid(events[n], v, read)
  {
    var e := events[n];
    assert AsksStore(StoreAfter(store, w, events[..n], read), e, read);
    if e.Heard? {
      var parsed := Parser.Parse(e.msg.raw, e.msg.timestamp, read);
      if parsed.Ok? {
        RunOnFlatStore(store, w, events[..n], v, parsed.value.hexIdent, read);
      }
    }
  }

  /** Nothing in the pipeline ever marks an aircraft valid. Over the concrete client, from a store
      without a valid aircraft, no run records anything: no state in the database or in Redis, no
      row opened or closed. */
  lemma {:induction false} NothingValidNothingRecorded(store: K.Store, w: World, events: seq<Event>, v: map<string, bool>, read: Reader)
    requires K.Represents(store, MapsOf(w, v)) && ValidatedByStore(store, w, events, read)
    requires forall h :: h in v ==> !v[h]
    ensures var w' := Run(w, events, read);
            w'.log == w.log && w'.rows == w.rows && w'.states == w.states
  {
    if events == [] {
    } else {
      var front, e := events[..|events| - 1], events[|events| - 1];
      forall n | 0 <= n < |front| ensures AsksStore(StoreAfter(store, w, front[..n], read), front[n], read) {
        assert front[..n] == events[..n] && front[n] == events[n];
      }
      NothingValidNothingRecorded(store, w, front, v, read);
      AcceptedIfValid(store, w, events, |front|, v, read);
      UnacceptedRecordsNothing(Run(w, front, read), e, read);
    }
  }

  lemma UnacceptedRecordsNothing(w: World, e: Event, read: Reader)
    requires Accepted(e, read).None?
    ensures var w' := EventStep(w, e, read);
            w'.log == w.log && w'.rows == w.rows && w'.states == w.states
  {
    if e.Restarted? {
      LoadedLeaves(w, e.listing, e.saves);
    }
  }
}
