/** What the counters count (internal/stats/stats.go driven by cmd/tracker/main.go),
    under any faults: every counter is the number of messages with a given outcome
    since the process started, modulo 2^64. */
module Counting {
  import opened Statistics
  import opened Types
  import opened Tracker
  import opened Sessions
  import Parser

  function OutcomeAt(w: World, e: Event, read: Reader): Outcome
    requires e.Heard?
  {
    MessageStep(w, e.msg, e.env, read).1
  }

  /** A restart is a new process with new counters. */
  function CountersAt(w: World, events: seq<Event>, read: Reader): Counters {
    if events == [] then NO_COUNTS
    else
      var front, e := events[..|events| - 1], events[|events| - 1];
      if e.Restarted? then NO_COUNTS
      else
        var w' := Run(w, events, read);
        Counted(CountersAt(w, front, read), TypeOf(e.msg, read), OutcomeAt(Run(w, front, read), e, read),
                |w'.cache|, |w'.local|)
  }

  function Outcomes(w: World, events: seq<Event>, read: Reader): seq<Outcome> {
    if events == [] then []
    else
      var front, e := events[..|events| - 1], events[|events| - 1];
      if e.Restarted? then [] else Outcomes(w, front, read) + [OutcomeAt(Run(w, front, read), e, read)]
  }

  /** The message types of the parsed messages. */
  function ParsedTypes(events: seq<Event>, read: Reader): seq<int> {
    if events == [] then []
    else
      var front, e := events[..|events| - 1], events[|events| - 1];
      if e.Restarted? then []
      else if Parser.Parse(e.msg.raw, e.msg.timestamp, read).Err? then ParsedTypes(front, read)
      else ParsedTypes(front, read) + [TypeOf(e.msg, read)]
  }

  function StoredIn(m: multiset<Outcome>): nat {
    m[Created] + m[Updated] + m[Ended] + m[NotCreated] + m[NotEnded]
  }

  /** The counters as plain tallies of outcomes and types. */
  ghost predicate Tallies(c: Counters, outcomes: seq<Outcome>, types: seq<int>) {
    && TalliesParsing(c, outcomes, types) && TalliesStoring(c, multiset(outcomes))
    && TalliesTypes(c.messageTypeCounts, types)
  }

  ghost predicate TalliesParsing(c: Counters, outcomes: seq<Outcome>, types: seq<int>) {
    && c.totalMessages == |outcomes| % WRAP
    && c.failedMessages == multiset(outcomes)[Unparsed] % WRAP
    && c.parsedMessages == |types| % WRAP && |types| == |outcomes| - multiset(outcomes)[Unparsed]
  }

  ghost predicate TalliesStoring(c: Counters, m: multiset<Outcome>) {
    && c.storedStates == StoredIn(m) % WRAP
    && c.createdFlights == m[Created] % WRAP
    && c.updatedFlights == m[Updated] % WRAP
    && c.endedFlights == m[Ended] % WRAP
  }

  ghost predicate TalliesTypes(counts: seq<Word>, types: seq<int>) {
    |counts| == 10 && forall t :: 0 <= t < 10 ==> counts[t] == multiset(types)[t] % WRAP
  }

  function WordOf(n: nat): Word {
    n % WRAP
  }

  lemma ModIs(n: nat, q: nat, r: nat)
    requires n == q * WRAP + r && r < WRAP
    ensures n % WRAP == r
  {
  }

  lemma AddMultiple(n: nat, q: nat)
    ensures (n + q * WRAP) % WRAP == n % WRAP
  {
    var k, r := n / WRAP, n % WRAP;
    assert n == k * WRAP + r;
    ModIs(n + q * WRAP, k + q, r);
  }

  lemma ModAddRight(a: nat, b: nat)
    ensures (a + b % WRAP) % WRAP == (a + b) % WRAP
  {
    var q, r := b / WRAP, b % WRAP;
    assert b == q * WRAP + r;
    AddMultiple(a + r, q);
  }

  lemma ModAdd(a: nat, b: nat)
    ensures (a % WRAP + b % WRAP) % WRAP == (a + b) % WRAP
    ensures (a + b % WRAP) % WRAP == (a + b) % WRAP
  {
    ModAddRight(a, b);
    ModAddRight(b % WRAP, a);
  }

  lemma UpCounts(n: nat)
    ensures Up(n % WRAP) == (n + 1) % WRAP
  {
    ModAddRight(1, n);
  }

  lemma TallyExtends(c: Counters, outcomes: seq<Outcome>, types: seq<int>,
                     o: Outcome, t: int, aircraft: nat, flights: nat)
    requires Tallies(c, outcomes, types)
    ensures Tallies(Counted(c, t, o, aircraft, flights), outcomes + [o], if o.Unparsed? then types else types + [t])
  {
    ParsingExtends(c, outcomes, types, o, t, aircraft, flights);
    StoringExtends(c, outcomes, o, t, aircraft, flights);
    CountedTypes(c, o, t, aircraft, flights);
    if !o.Unparsed? {
      TypesExtend(c.messageTypeCounts, types, t);
    }
  }

  lemma CountedTypes(c: Counters, o: Outcome, t: int, aircraft: nat, flights: nat)
    ensures Counted(c, t, o, aircraft, flights).messageTypeCounts
         == if o.Unparsed? then c.messageTypeCounts else UpAt(c.messageTypeCounts, t)
  {
  }

  lemma ParsingExtends(c: Counters, outcomes: seq<Outcome>, types: seq<int>,
                       o: Outcome, t: int, aircraft: nat, flights: nat)
    requires TalliesParsing(c, outcomes, types)
    ensures TalliesParsing(Counted(c, t, o, aircraft, flights), outcomes + [o], if o.Unparsed? then types else types + [t])
  {
    var m, c' := multiset(outcomes), Counted(c, t, o, aircraft, flights);
    assert multiset(outcomes + [o]) == m[o := m[o] + 1];
    CountedParsing(c, o, t, aircraft, flights);
    hide Counted;
    UpCounts(|outcomes|);
    UpCounts(m[Unparsed]);
    UpCounts(|types|);
  }

  lemma CountedParsing(c: Counters, o: Outcome, t: int, aircraft: nat, flights: nat)
    ensures var c' := Counted(c, t, o, aircraft, flights);
            && c'.totalMessages == Up(c.totalMessages)
            && c'.failedMessages == (if o.Unparsed? then Up(c.failedMessages) else c.failedMessages)
            && c'.parsedMessages == (if o.Unparsed? then c.parsedMessages else Up(c.parsedMessages))
  {
  }

  lemma StoringExtends(c: Counters, outcomes: seq<Outcome>, o: Outcome, t: int, aircraft: nat, flights: nat)
    requires TalliesStoring(c, multiset(outcomes))
    ensures TalliesStoring(Counted(c, t, o, aircraft, flights), multiset(outcomes + [o]))
  {
    var m := multiset(outcomes);
    assert multiset(outcomes + [o]) == m[o := m[o] + 1];
    CountedStoring(c, o, t, aircraft, flights);
    hide Counted;
    UpCounts(StoredIn(m));
    UpCounts(m[o]);
  }

  lemma CountedStoring(c: Counters, o: Outcome, t: int, aircraft: nat, flights: nat)
    ensures var c' := Counted(c, t, o, aircraft, flights);
            && c'.storedStates == (if o.Unparsed? || o.Skipped? || o.StateNotStored? then c.storedStates else Up(c.storedStates))
            && c'.createdFlights == (if o.Created? then Up(c.createdFlights) else c.createdFlights)
            && c'.updatedFlights == (if o.Updated? then Up(c.updatedFlights) else c.updatedFlights)
            && c'.endedFlights == (if o.Ended? then Up(c.endedFlights) else c.endedFlights)
  {
  }

  lemma TypesExtend(counts: seq<Word>, types: seq<int>, t: int)
    requires |counts| == 10 && forall i :: 0 <= i < 10 ==> counts[i] == multiset(types)[i] % WRAP
    ensures |UpAt(counts, t)| == 10
    ensures forall i :: 0 <= i < 10 ==> UpAt(counts, t)[i] == multiset(types + [t])[i] % WRAP
  {
    assert multiset(types + [t]) == multiset(types)[t := multiset(types)[t] + 1];
    UpCounts(multiset(types)[t]);
  }

  lemma UnparsedExactly(w: World, e: Event, read: Reader)
    requires e.Heard?
    ensures OutcomeAt(w, e, read) == Unparsed <==> Parser.Parse(e.msg.raw, e.msg.timestamp, read).Err?
  {
    var parsed := Parser.Parse(e.msg.raw, e.msg.timestamp, read);
    if parsed.Ok? {
      ParsedIsNotUnparsed(w, parsed.value, e.env);
    }
  }

  lemma ParsedIsNotUnparsed(w: World, s: StateRecord, env: Environment)
    ensures StateStep(w, s, env).1 != Unparsed
  {
    var w' := CacheState(w, s, env);
    assert FlightStep(w', s, env).1 != Unparsed;
  }

  /** Whatever fails and whenever, the counters are exactly these tallies. */
  lemma {:induction false} CountersTally(w: World, events: seq<Event>, read: Reader)
    ensures Tallies(CountersAt(w, events, read), Outcomes(w, events, read), ParsedTypes(events, read))
  {
    if events == [] || events[|events| - 1].Restarted? {
    } else {
      var front, e := events[..|events| - 1], events[|events| - 1];
      CountersTally(w, front, read);
      var before, after := Run(w, front, read), Run(w, events, read);
      UnparsedExactly(before, e, read);
      TallyExtends(CountersAt(w, front, read), Outcomes(w, front, read), ParsedTypes(front, read),
                   OutcomeAt(before, e, read), TypeOf(e.msg, read), |after.cache|, |after.local|);
    }
  }

  lemma {:induction false} OutcomesPartition(outcomes: seq<Outcome>)
    ensures var m := multiset(outcomes);
            |outcomes| == m[Unparsed] + m[Skipped] + m[StateNotStored] + StoredIn(m)
  {
    if outcomes == [] {
      assert multiset(outcomes) == multiset{};
    } else {
      var front, o := outcomes[..|outcomes| - 1], outcomes[|outcomes| - 1];
      OutcomesPartition(front);
      assert outcomes == front + [o];
      OneMore(multiset(front), o);
      assert multiset(outcomes) == multiset(front)[o := multiset(front)[o] + 1];
    }
  }

  lemma OneMore(m: multiset<Outcome>, o: Outcome)
    ensures (var k := m[o := m[o] + 1]; k[Unparsed] + k[Skipped] + k[StateNotStored] + StoredIn(k))
         == m[Unparsed] + m[Skipped] + m[StateNotStored] + StoredIn(m) + 1
  {
    match o
    case Unparsed =>
    case Skipped =>
    case StateNotStored =>
    case NotCreated =>
    case Created =>
    case Updated =>
    case NotEnded =>
    case Ended =>
  }

  function Sum(counts: seq<Word>): nat {
    if counts == [] then 0 else Sum(counts[..|counts| - 1]) + counts[|counts| - 1]
  }

  function CountBelow10(types: seq<int>): nat {
    if types == [] then 0
    else CountBelow10(types[..|types| - 1]) + (if 0 <= types[|types| - 1] < 10 then 1 else 0)
  }

  /** The conservation laws, modulo 2^64: every message is parsed or failed; every parsed one
      is skipped, not stored or stored; every stored one creates, updates or ends a flight or
      fails to. */
  ghost predicate Conserved(c: Counters, outcomes: seq<Outcome>) {
    var m := multiset(outcomes);
    && c.totalMessages == (c.parsedMessages + c.failedMessages) % WRAP
    && c.parsedMessages == (m[Skipped] + m[StateNotStored] + c.storedStates) % WRAP
    && c.storedStates == (c.createdFlights + c.updatedFlights + c.endedFlights
                          + m[NotCreated] + m[NotEnded]) % WRAP
  }

  /** The type counts add up to the parsed messages of types 0 to 9: the status types 10, 11
      and 12 are parsed but not counted by type. */
  ghost predicate TypesConserved(c: Counters, types: seq<int>) {
    Sum(c.messageTypeCounts) % WRAP == CountBelow10(types) % WRAP
  }

  lemma CountersConserve(w: World, events: seq<Event>, read: Reader)
    ensures Conserved(CountersAt(w, events, read), Outcomes(w, events, read))
    ensures TypesConserved(CountersAt(w, events, read), ParsedTypes(events, read))
  {
    var c, outcomes, types := CountersAt(w, events, read), Outcomes(w, events, read), ParsedTypes(events, read);
    CountersTally(w, events, read);
    TalliesConserve(c, outcomes, types);
    TalliesConserveTypes(c, outcomes, types);
  }

  lemma TalliesConserve(c: Counters, outcomes: seq<Outcome>, types: seq<int>)
    requires Tallies(c, outcomes, types)
    ensures Conserved(c, outcomes)
  {
    var m := multiset(outcomes);
    OutcomesPartition(outcomes);
    ModAdd(|types|, m[Unparsed]);
    assert |types| + m[Unparsed] == |outcomes|;
    ModAdd(m[Skipped] + m[StateNotStored], StoredIn(m));
    assert m[Skipped] + m[StateNotStored] + StoredIn(m) == |types|;
    StoredConserve(m[Created], m[Updated], m[Ended], m[NotCreated] + m[NotEnded]);
    StoredSum(m);
  }

  lemma StoredSum(m: multiset<Outcome>)
    ensures StoredIn(m) == m[Created] + m[Updated] + m[Ended] + (m[NotCreated] + m[NotEnded])
  {
  }

  lemma TalliesConserveTypes(c: Counters, outcomes: seq<Outcome>, types: seq<int>)
    requires Tallies(c, outcomes, types)
    ensures TypesConserved(c, types)
  {
    assert c.messageTypeCounts == TypeCounts(types);
    TypeCountsAddUp(types);
  }

  lemma StoredConserve(created: nat, updated: nat, ended: nat, failed: nat)
    ensures (created % WRAP + updated % WRAP + ended % WRAP + failed) % WRAP
         == (created + updated + ended + failed) % WRAP
  {
    ModAdd(failed + ended % WRAP + updated % WRAP, created);
    ModAdd(failed + ended % WRAP + created, updated);
    ModAdd(failed + created + updated, ended);
  }

  lemma {:induction false} SumUpAt(counts: seq<Word>, t: nat)
    requires t < |counts|
    ensures Sum(UpAt(counts, t)) % WRAP == (Sum(counts) + 1) % WRAP
  {
    var n := |counts| - 1;
    var front: seq<Word> := counts[..n];
    var last: nat := counts[n];
    if t < n {
      SumUpAt(front, t);
      assert UpAt(counts, t)[..n] == UpAt(front, t);
      ShiftMod(Sum(UpAt(front, t)), Sum(front) + 1, last);
    } else {
      assert UpAt(counts, t)[..n] == front;
      ModAddRight(Sum(front), last + 1);
    }
  }

  lemma ShiftMod(a: nat, b: nat, c: nat)
    requires a % WRAP == b % WRAP
    ensures (a + c) % WRAP == (b + c) % WRAP
  {
    ModAddRight(c, a);
    ModAddRight(c, b);
  }

  function TypeCounts(types: seq<int>): seq<Word> {
    seq(10, i => WordOf(multiset(types)[i]))
  }

  lemma TypeCountsExtend(types: seq<int>, t: int)
    ensures TypeCounts(types + [t]) == UpAt(TypeCounts(types), t)
  {
    TypesExtend(TypeCounts(types), types, t);
  }

  lemma {:induction false} TypeCountsAddUp(types: seq<int>)
    ensures Sum(TypeCounts(types)) % WRAP == CountBelow10(types) % WRAP
  {
    if types == [] {
      SumZero(TypeCounts(types));
    } else {
      var front, t := types[..|types| - 1], types[|types| - 1];
      TypeCountsAddUp(front);
      TypeCountsExtend(front, t);
      assert types == front + [t];
      OneMoreType(TypeCounts(front), CountBelow10(front), t);
    }
  }

  lemma OneMoreType(counts: seq<Word>, n: nat, t: int)
    requires |counts| == 10 && Sum(counts) % WRAP == n % WRAP
    ensures Sum(UpAt(counts, t)) % WRAP == (n + (if 0 <= t < 10 then 1 else 0)) % WRAP
  {
    if 0 <= t < 10 {
      SumUpAt(counts, t);
      ModAdd(1, Sum(counts));
      ModAdd(1, n);
    }
  }

  lemma {:induction false} SumZero(counts: seq<Word>)
    requires forall i :: 0 <= i < |counts| ==> counts[i] == 0
    ensures Sum(counts) == 0
  {
    if counts == [] {
    } else {
      SumZero(counts[..|counts| - 1]);
    }
  }

  /** The subscription: messages handed to the tracker one after another. The object does to
      its views and counters what the run and its tallies say. */
  method Serve(tracker: StateTracker, inbox: seq<Event>)
    requires forall e :: e in inbox ==> e.Heard?
    requires tracker.stats.Counts() == NO_COUNTS
    modifies tracker, tracker.redis, tracker.db, tracker.stats
    ensures tracker.View() == Run(old(tracker.View()), inbox, tracker.read)
    ensures tracker.stats.Counts() == CountersAt(old(tracker.View()), inbox, tracker.read)
  {
    ghost var w := tracker.View();
    var n := 0;
    while n < |inbox|
      invariant 0 <= n <= |inbox|
      invariant tracker.View() == Run(w, inbox[..n], tracker.read)
      invariant tracker.stats.Counts() == CountersAt(w, inbox[..n], tracker.read)
    {
      assert inbox[..n + 1][..n] == inbox[..n] && inbox[n] in inbox;
      var outcome := tracker.ProcessMessage(inbox[n].msg, inbox[n].env);
      n := n + 1;
    }
    assert inbox[..n] == inbox;
  }

  // ---- Active flights, in healthy runs

  /** Without faults and restarts, loaded plus created minus ended is what is active. */
  lemma {:induction false} ActiveFlightsBalance(w: World, events: seq<Event>, read: Reader)
    requires Consistent(w) && HealthyRun(w, events, read) && forall e :: e in events ==> e.Heard?
    ensures var m := multiset(Outcomes(w, events, read));
            |Run(w, events, read).local| + m[Ended] == |w.local| + m[Created]
  {
    hide Consistent, EventStep, OutcomeAt, Healthy;
    if events != [] {
      var front, e := events[..|events| - 1], events[|events| - 1];
      HealthyFront(w, events, read);
      ActiveFlightsBalance(w, front, read);
      RunConsistent(w, front, read);
      var before := Run(w, front, read);
      ActiveStep(before, e, read);
      OutcomesSnoc(Outcomes(w, front, read), OutcomeAt(before, e, read));
      assert Run(w, events, read) == EventStep(before, e, read);
      assert Outcomes(w, events, read) == Outcomes(w, front, read) + [OutcomeAt(before, e, read)];
    } else {
      assert multiset(Outcomes(w, events, read)) == multiset{};
    }
  }

  lemma OutcomesSnoc(outcomes: seq<Outcome>, o: Outcome)
    ensures multiset(outcomes + [o])[Created] == multiset(outcomes)[Created] + (if o.Created? then 1 else 0)
    ensures multiset(outcomes + [o])[Ended] == multiset(outcomes)[Ended] + (if o.Ended? then 1 else 0)
  {
  }

  lemma ActiveStep(w: World, e: Event, read: Reader)
    requires Consistent(w) && e.Heard? && Healthy(w, e)
    ensures var n, o := |EventStep(w, e, read).local|, OutcomeAt(w, e, read);
            n == if o.Created? then |w.local| + 1 else if o.Ended? then |w.local| - 1 else |w.local|
  {
    if Accepted(e, read).Some? {
      ActiveStateStep(w, Accepted(e, read).value, e.env);
    }
  }

  lemma ActiveStateStep(w: World, s: StateRecord, env: Environment)
    requires Consistent(w) && FaultFree(env) && env.newSession !in w.rows && !env.validation.Invalid?
    ensures var (w', o) := StateStep(w, s, env);
            |w'.local| == if o.Created? then |w.local| + 1 else if o.Ended? then |w.local| - 1 else |w.local|
  {
    StateStepBranch(w, s, env);
    hide StateStep, FlightStep, Consistent;
    if s.hexIdent in w.local && Stale(s, env.now) {
      OneFewer(w.local, s.hexIdent);
    }
  }

  /** Which branch a fault-free state takes, and what that does to the local flights. */
  lemma StateStepBranch(w: World, s: StateRecord, env: Environment)
    requires Consistent(w) && FaultFree(env) && env.newSession !in w.rows && !env.validation.Invalid?
    ensures var (w', o) := StateStep(w, s, env);
            if s.hexIdent !in w.local then o.Created? && w'.local == w.local[s.hexIdent := NewFlight(s, env.newSession)]
            else if Stale(s, env.now) then o.Ended? && w'.local == w.local - {s.hexIdent}
            else o.Updated? && w'.local == w.local
  {
    var w' := CacheState(w, s, env);
    if s.hexIdent in w.local {
      assert InStep(w, s.hexIdent);
    }
    hide Linked;
    assert StateStep(w, s, env) == FlightStep(w', s, env);
  }

  lemma OneFewer(local: map<string, FlightRecord>, h: string)
    requires h in local
    ensures |local - {h}| == |local| - 1
  {
    assert (local - {h}).Keys == local.Keys - {h};
  }
}
