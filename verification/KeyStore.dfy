/** The Redis client (internal/redis/client.go): flights, aircraft states and validations
    share one flat key space, told apart by a prefix. It behaves as three maps. */
module KeyStore {
  import opened Wrappers
  import opened Types

  // A JSON document or plain text; encoding is copying.
  datatype Document = FlightDocument(flight: FlightRecord) | StateDocument(state: StateRecord) | PlainText(text: string)

  type Store = map<string, Document>

  function FlightKey(hexIdent: string): string { "flight:" + hexIdent }
  function StateKey(hexIdent: string): string { "aircraft:" + hexIdent }
  function ValidationKey(hexIdent: string): string { "validation:" + hexIdent }

  datatype Operation =
    | StoreFlight(flight: FlightRecord)
    | DeleteFlight(hexIdent: string)
    | StoreState(state: StateRecord)
    | DeleteState(hexIdent: string)
    | SetValidation(hexIdent: string, valid: bool)

  function Apply(store: Store, op: Operation): Store {
    match op
    case StoreFlight(f) => store[FlightKey(f.hexIdent) := FlightDocument(f)]
    case DeleteFlight(h) => store - {FlightKey(h)}
    case StoreState(s) => store[StateKey(s.hexIdent) := StateDocument(s)]
    case DeleteState(h) => store - {StateKey(h)}
    case SetValidation(h, valid) => store[ValidationKey(h) := PlainText(if valid then "1" else "0")]
  }

  function ApplyAll(store: Store, ops: seq<Operation>): Store {
    if ops == [] then store else Apply(ApplyAll(store, ops[..|ops| - 1]), ops[|ops| - 1])
  }

  class Client {
    var store: Store

    method StoreFlight(flight: FlightRecord)
      modifies this
      ensures store == Apply(old(store), Operation.StoreFlight(flight))
    {
      store := store["flight:" + flight.hexIdent := FlightDocument(flight)];
    }

    /** A miss is answered with a zero flight, a document of another kind with an error. */
    method GetFlight(hexIdent: string) returns (result: Result<FlightRecord, string>)
      ensures result == ReadFlight(store, hexIdent)
    {
      var key := "flight:" + hexIdent;
      var flight := BLANK_FLIGHT;
      if key in store {
        if !store[key].FlightDocument? { return Err("failed to unmarshal flight data"); }
        flight := store[key].flight;
      }
      return Ok(flight);
    }

    method DeleteFlight(hexIdent: string)
      modifies this
      ensures store == Apply(old(store), Operation.DeleteFlight(hexIdent))
    {
      store := store - {"flight:" + hexIdent};
    }

    method StoreAircraftState(state: StateRecord)
      modifies this
      ensures store == Apply(old(store), StoreState(state))
    {
      store := store["aircraft:" + state.hexIdent := StateDocument(state)];
    }

    method GetAircraftState(hexIdent: string) returns (result: Result<StateRecord, string>)
      ensures result == ReadState(store, hexIdent)
    {
      var key := "aircraft:" + hexIdent;
      var state := BlankState(0, NO_TIME);
      if key in store {
        if !store[key].StateDocument? { return Err("failed to unmarshal aircraft state data"); }
        state := store[key].state;
      }
      return Ok(state);
    }

    method DeleteAircraftState(hexIdent: string)
      modifies this
      ensures store == Apply(old(store), DeleteState(hexIdent))
    {
      store := store - {"aircraft:" + hexIdent};
    }

    method SetFlightValidation(hexIdent: string, valid: bool)
      modifies this
      ensures store == Apply(old(store), SetValidation(hexIdent, valid))
    {
      var value := "1";
      if !valid { value := "0"; }
      store := store["validation:" + hexIdent := PlainText(value)];
    }

    method GetFlightValidation(hexIdent: string) returns (valid: bool)
      ensures valid == ReadValidation(store, hexIdent)
    {
      var key := "validation:" + hexIdent;
      if key !in store { return false; }
      return store[key] == PlainText("1");
    }
  }

  function ReadFlight(store: Store, hexIdent: string): Result<FlightRecord, string> {
    if FlightKey(hexIdent) !in store then Ok(BLANK_FLIGHT)
    else
      match store[FlightKey(hexIdent)]
      case FlightDocument(f) => Ok(f)
      case _ => Err("failed to unmarshal flight data")
  }

  function ReadState(store: Store, hexIdent: string): Result<StateRecord, string> {
    if StateKey(hexIdent) !in store then Ok(BlankState(0, NO_TIME))
    else
      match store[StateKey(hexIdent)]
      case StateDocument(s) => Ok(s)
      case _ => Err("failed to unmarshal aircraft state data")
  }

  function ReadValidation(store: Store, hexIdent: string): bool {
    ValidationKey(hexIdent) in store && store[ValidationKey(hexIdent)] == PlainText("1")
  }

  // ---- The three maps the rest of the pipeline has in mind

  datatype Maps = Maps(flights: map<string, FlightRecord>, states: map<string, StateRecord>, validations: map<string, bool>)

  function ApplyToMaps(m: Maps, op: Operation): Maps {
    match op
    case StoreFlight(f) => m.(flights := m.flights[f.hexIdent := f])
    case DeleteFlight(h) => m.(flights := m.flights - {h})
    case StoreState(s) => m.(states := m.states[s.hexIdent := s])
    case DeleteState(h) => m.(states := m.states - {h})
    case SetValidation(h, valid) => m.(validations := m.validations[h := valid])
  }

  function ApplyAllToMaps(m: Maps, ops: seq<Operation>): Maps {
    if ops == [] then m else ApplyToMaps(ApplyAllToMaps(m, ops[..|ops| - 1]), ops[|ops| - 1])
  }

  ghost predicate Represents(store: Store, m: Maps) {
    forall h: string :: RepresentsAt(store, m, h)
  }

  ghost predicate RepresentsAt(store: Store, m: Maps, h: string) {
    && (FlightKey(h) in store <==> h in m.flights)
    && (h in m.flights ==> store[FlightKey(h)] == FlightDocument(m.flights[h]))
    && (StateKey(h) in store <==> h in m.states)
    && (h in m.states ==> store[StateKey(h)] == StateDocument(m.states[h]))
    && (ValidationKey(h) in store <==> h in m.validations)
    && (h in m.validations ==> store[ValidationKey(h)] == PlainText(if m.validations[h] then "1" else "0"))
  }

  /** Two keys coincide only if they are of the same kind and name the same aircraft. */
  lemma KeysApart(g: string, h: string)
    ensures FlightKey(g) == FlightKey(h) ==> g == h
    ensures StateKey(g) == StateKey(h) ==> g == h
    ensures ValidationKey(g) == ValidationKey(h) ==> g == h
    ensures FlightKey(g) != StateKey(h) && FlightKey(g) != ValidationKey(h) && StateKey(g) != ValidationKey(h)
    ensures "flight:" <= FlightKey(g) && "aircraft:" <= StateKey(g) && "validation:" <= ValidationKey(g)
  {
    assert FlightKey(g)[7..] == g && FlightKey(h)[7..] == h;
    assert StateKey(g)[9..] == g && StateKey(h)[9..] == h;
    assert ValidationKey(g)[11..] == g && ValidationKey(h)[11..] == h;
    assert FlightKey(g)[0] == 'f' && StateKey(g)[0] == 'a' && StateKey(h)[0] == 'a' && ValidationKey(h)[0] == 'v';
  }

  function Subject(op: Operation): string {
    match op
    case StoreFlight(f) => f.hexIdent
    case DeleteFlight(h) => h
    case StoreState(s) => s.hexIdent
    case DeleteState(h) => h
    case SetValidation(h, _) => h
  }

  lemma StepRepresents(store: Store, m: Maps, op: Operation)
    requires Represents(store, m)
    ensures Represents(Apply(store, op), ApplyToMaps(m, op))
  {
    forall h: string ensures RepresentsAt(Apply(store, op), ApplyToMaps(m, op), h) {
      assert RepresentsAt(store, m, h);
      KeysApart(Subject(op), h);
      KeysApart(h, Subject(op));
    }
  }

  /** The refinement: after any sequence of operations the flat store still stands for the
      three maps changed independently, and every read answers from its own map; reads never
      meet a document of the wrong kind. */
  lemma {:induction false} FlatStoreRefinesMaps(store: Store, m: Maps, ops: seq<Operation>, h: string)
    requires Represents(store, m)
    ensures var after, maps := ApplyAll(store, ops), ApplyAllToMaps(m, ops);
            && Represents(after, maps)
            && ReadFlight(after, h) == Ok(if h in maps.flights then maps.flights[h] else BLANK_FLIGHT)
            && ReadState(after, h) == Ok(if h in maps.states then maps.states[h] else BlankState(0, NO_TIME))
            && ReadValidation(after, h) == (h in maps.validations && maps.validations[h])
  {
    if ops == [] {
    } else {
      FlatStoreRefinesMaps(store, m, ops[..|ops| - 1], h);
      StepRepresents(ApplyAll(store, ops[..|ops| - 1]), ApplyAllToMaps(m, ops[..|ops| - 1]), ops[|ops| - 1]);
    }
    assert RepresentsAt(ApplyAll(store, ops), ApplyAllToMaps(m, ops), h);
    TextsDiffer();
  }

  lemma TextsDiffer()
    ensures "1" != "0"
  {
    assert "1"[0] != "0"[0];
  }

  /** What lies in the store itself under each key: a document, or one of two texts. */
  lemma StoredExactly(store: Store, m: Maps, h: string)
    requires Represents(store, m)
    ensures h in m.flights ==> "flight:" + h in store && store["flight:" + h] == FlightDocument(m.flights[h])
    ensures h in m.states ==> "aircraft:" + h in store && store["aircraft:" + h] == StateDocument(m.states[h])
    ensures h in m.validations ==>
              "validation:" + h in store && store["validation:" + h] == PlainText(if m.validations[h] then "1" else "0")
    ensures ReadValidation(store, h) <==> h in m.validations && store["validation:" + h] == PlainText("1")
  {
    assert RepresentsAt(store, m, h);
    TextsDiffer();
  }
}
