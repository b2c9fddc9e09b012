/** What rotation loses (cmd/logger/main.go): two tokens can be issued for one midnight, the
    second rotation archives the new day's log under its writers, and the next midnight
    truncates that archive. All of it happens with every call succeeding. */
module Rotation {
  import opened Logger

  /** Some run of the machine leads from `s` to `s'`, reopening only on later days. */
  ghost predicate Leads(s: State, s': State) {
    exists steps :: IsRun(s, steps) && RunsAcrossDays(s, steps) && Run(s, steps) == s'
  }

  ghost predicate Reaches(s: State, s': State) {
    exists steps :: IsRun(s, steps) && Run(s, steps) == s'
  }

  lemma LeadsSelf(s: State)
    ensures Leads(s, s)
  {
    assert IsRun(s, []) && RunsAcrossDays(s, []) && Run(s, []) == s;
  }

  lemma LeadsStep(s: State, s': State, step: Step)
    requires Leads(s, s') && Enabled(s', step) && AcrossDays(s', step)
    ensures Leads(s, Next(s', step))
  {
    var steps :| IsRun(s, steps) && RunsAcrossDays(s, steps) && Run(s, steps) == s';
    Extend(s, steps, step);
    assert (steps + [step])[..|steps|] == steps;
    assert RunsAcrossDays(s, steps + [step]);
  }

  lemma {:induction false} LeadsAlong(s: State, a: State, steps: seq<Step>)
    requires Leads(s, a) && IsRun(a, steps) && RunsAcrossDays(a, steps)
    ensures Leads(s, Run(a, steps))
  {
    if steps == [] {
    } else {
      LeadsAlong(s, a, steps[..|steps| - 1]);
      LeadsStep(s, Run(a, steps[..|steps| - 1]), steps[|steps| - 1]);
    }
  }

  lemma LeadsOn(s: State, a: State, b: State)
    requires Leads(s, a) && Leads(a, b)
    ensures Leads(s, b)
  {
    var steps :| IsRun(a, steps) && RunsAcrossDays(a, steps) && Run(a, steps) == b;
    LeadsAlong(s, a, steps);
  }

  /** Conservation, said of `Leads`. */
  lemma LeadsKeeps(s: State, s': State)
    requires Started(s) && Leads(s, s')
    ensures Shaped(s') && Durable(s')
  {
    var steps :| IsRun(s, steps) && RunsAcrossDays(s, steps) && Run(s, steps) == s';
    NothingAcknowledgedIsLost(s, steps);
    OneFileOpen(s, steps);
  }

  // ---- Moves with every call succeeding

  /** Everything but the writers, the token, the clock and what writing changes. */
  predicate SameFiles(s: State, s': State) {
    && s'.currentDay == s.currentDay && s'.currentFile == s.currentFile && s'.handles == s.handles
    && s'.logs == s.logs && s'.archives == s.archives && s'.rotator == s.rotator
  }

  /** A writer at rest comes to its write, leaving a token if the day has changed. */
  lemma Arrives(s: State, i: nat, name: Name)
    requires i < |s.writers| && s.writers[i].Resting? && !LockHeld(s) && (s.currentDay == s.today || !s.token)
    ensures Leads(s, s.(token := s.token || s.currentDay != s.today, writers := s.writers[i := Writing(name, s.currentFile)]))
  {
    hide AcrossDays;
    var took := Next(s, Take(i, name));
    var checked := Next(took, Check(i));
    ArrivedIs(s, i, name);
    LeadsSelf(s);
    QuietStep(s, s, Take(i, name));
    QuietStep(s, took, Check(i));
    if checked.writers[i].Asking? {
      QuietStep(s, checked, Send(i));
    }
  }

  /** A step that is no reopening. */
  lemma QuietStep(s: State, s': State, step: Step)
    requires Leads(s, s') && Enabled(s', step) && !step.OpenLog?
    ensures Leads(s, Next(s', step))
  {
    LeadsStep(s, s', step);
  }

  /** A writer at rest delivers a message: to the file it took, whatever the day. */
  lemma Delivers(s: State, i: nat, name: Name) returns (s': State)
    requires i < |s.writers| && s.writers[i].Resting? && !LockHeld(s) && (s.currentDay == s.today || !s.token)
    ensures Leads(s, s') && SameFiles(s, s') && s'.writers == s.writers && s'.today == s.today
    ensures s'.token == (s.token || s.currentDay != s.today)
    ensures CurrentOpen(s) && s.currentDay == s.handles[s.currentFile].day && s.handles[s.currentFile].inode < |s.inodes| ==>
              var inode := s.handles[s.currentFile].inode;
              && s'.inodes == s.inodes[inode := s.inodes[inode] + [Whole(name)]]
              && s'.acknowledged == s.acknowledged[s.currentDay := Acknowledged(s, s.currentDay) + [name]]
  {
    Arrives(s, i, name);
    var writing := s.(token := s.token || s.currentDay != s.today, writers := s.writers[i := Writing(name, s.currentFile)]);
    QuietStep(s, writing, Put(i, Full));
    s' := Next(writing, Put(i, Full));
    assert s.writers[i := Writing(name, s.currentFile)][i := Resting] == s.writers;
  }

  /** Midnight has passed: somebody asks for a rotation. */
  lemma Asks(s: State, i: nat, name: Name) returns (s': State)
    requires i < |s.writers| && s.writers[i].Resting? && !LockHeld(s) && s.currentDay != s.today && !s.token
    ensures Leads(s, s') && SameFiles(s, s') && s'.token && s'.today == s.today && s'.writers == s.writers
  {
    s' := Delivers(s, i, name);
  }

  /** From the lock on: the log is closed, archived whole and removed. */
  lemma Strips(s: State) returns (s': State)
    requires Shaped(s) && s.rotator.Locking? && CurrentOpen(s)
    ensures Leads(s, s') && s'.rotator.Opening? && s'.writers == s.writers && s'.token == s.token
    ensures s'.today == s.today && s'.currentDay == s.currentDay && s'.currentDay !in s'.logs
    ensures s'.acknowledged == s.acknowledged
  {
    s' := Creates(s);
    var fill := FillArchive(|s'.rotator.data|);
    QuietStep(s, s', fill);
    s' := Next(s', fill);
    QuietStep(s, s', RemoveLog(true));
    s' := Next(s', RemoveLog(true));
  }

  lemma Creates(s: State) returns (s': State)
    requires Shaped(s) && s.rotator.Locking? && CurrentOpen(s)
    ensures Leads(s, s') && s' == ClosedFile(s).(archives := s.archives[s.currentDay := []], rotator := Filling(Contents(s, s.currentDay)))
  {
    LeadsSelf(s);
    QuietStep(s, s, Lock);
    var closing := s.(rotator := Closing);
    QuietStep(s, closing, Close(true));
    var reading := ClosedFile(s).(rotator := Reading);
    assert Next(closing, Close(true)) == reading;
    QuietStep(s, reading, ReadLog(true));
    var creating := Next(reading, ReadLog(true));
    QuietStep(s, creating, CreateArchive(true));
    s' := Next(creating, CreateArchive(true));
  }

  // ---- Two tokens for one midnight

  /** From any started logger with a writer at rest, with every call succeeding, a run leads to
      the new day's log being open with a token left over: the writer finds the day changed once
      before the rotation takes the lock and once after it received its token. */
  lemma TwoTokens(s: State, i: nat, name: Name) returns (s': State)
    requires Started(s) && i < |s.writers| && s.writers[i].Resting?
    ensures Leads(s, s') && Started(s') && s'.token && s'.today == s'.currentDay && s'.writers == s.writers
  {
    LeadsSelf(s);
    var midnight := s.(today := s.currentDay + 1);
    QuietStep(s, s, Tick(s.currentDay + 1));
    var asked := midnight;
    if !s.token {
      asked := Asks(midnight, i, name);
      LeadsOn(s, midnight, asked);
    }
    s' := TokenDoubles(s, asked, i, name);
  }

  lemma TokenDoubles(s: State, asked: State, i: nat, name: Name) returns (s': State)
    requires Started(s) && Leads(s, asked) && i < |asked.writers| && asked.writers[i].Resting?
    requires asked.token && asked.rotator.Waiting? && asked.currentDay < asked.today && CurrentOpen(asked)
    ensures Leads(s, s') && Started(s') && s'.token && s'.today == s'.currentDay && s'.writers == asked.writers
  {
    QuietStep(s, asked, Receive);
    var received := Next(asked, Receive);
    var again := Asks(received, i, name);
    LeadsOn(s, received, again);
    LeadsKeeps(s, again);
    var stripped := Strips(again);
    LeadsOn(s, again, stripped);
    LeadsStep(s, stripped, OpenLog(true));
    s' := Next(stripped, OpenLog(true));
    LeadsKeeps(s, s');
  }

  // ---- From there to the loss

  /** The open log holds fewer messages than were acknowledged for its day. */
  ghost predicate Short(s: State) {
    && Shaped(s) && s.rotator.Waiting? && CurrentOpen(s)
    && s.currentDay in s.logs && s.logs[s.currentDay] < |s.inodes|
    && |Wholes(Contents(s, s.currentDay))| < |Acknowledged(s, s.currentDay)|
  }

  /** The next rotation truncates the archive that holds the others. */
  lemma NextRotationLoses(s: State) returns (s': State)
    requires Short(s) && s.token
    ensures Leads(s, s') && !Kept(s', s.currentDay)
  {
    LeadsSelf(s);
    QuietStep(s, s, Receive);
    var locking := Next(s, Receive);
    s' := Creates(locking);
    LeadsOn(s, locking, s');
    assert Contents(s', s.currentDay) == Contents(s, s.currentDay);
    assert s'.archives[s.currentDay] == [] && Wholes([]) == [];
  }

  /** Any writer at all brings that rotation about at the next midnight. */
  lemma WriterLoses(s: State, i: nat) returns (s': State)
    requires Short(s) && i < |s.writers|
    ensures Leads(s, s') && !Kept(s', s.currentDay)
  {
    var rested, asked := s, s;
    if !s.token {
      rested := Rests(s, i);
      asked := rested;
      if !rested.token {
        var midnight := rested.(today := s.currentDay + 1);
        LeadsSelf(rested);
        QuietStep(rested, rested, Tick(s.currentDay + 1));
        Arrives(midnight, i, 0);
        asked := midnight.(token := true, writers := midnight.writers[i := Writing(0, midnight.currentFile)]);
        LeadsOn(rested, midnight, asked);
        LeadsOn(s, rested, asked);
      }
    } else {
      LeadsSelf(s);
    }
    s' := NextRotationLoses(asked);
    LeadsOn(s, asked, s');
  }

  /** Wherever it is, a writer comes to rest or leaves a token, and no file need change. */
  lemma Rests(s: State, i: nat) returns (s': State)
    requires Short(s) && i < |s.writers| && !s.token
    ensures Leads(s, s') && Short(s') && s'.currentDay == s.currentDay && |s'.writers| == |s.writers|
    ensures s'.token || s'.writers[i].Resting?
  {
    LeadsSelf(s);
    s' := s;
    if s'.writers[i].Took? {
      ShortStays(s', Check(i));
      QuietStep(s, s', Check(i));
      s' := Next(s', Check(i));
    }
    if s'.writers[i].Asking? {
      ShortStays(s', Send(i));
      QuietStep(s, s', Send(i));
      s' := Next(s', Send(i));
    } else if s'.writers[i].Writing? {
      ShortStays(s', Put(i, Nothing));
      QuietStep(s, s', Put(i, Nothing));
      s' := Next(s', Put(i, Nothing));
    }
    hide Short;
  }

  lemma ShortStays(s: State, step: Step)
    requires Short(s) && Enabled(s, step) && (step.Check? || step.Send? || (step.Put? && step.write.Nothing?))
    ensures Short(Next(s, step)) && Next(s, step).currentDay == s.currentDay
  {
    StepKeepsShape(s, step);
    hide Shaped;
  }

  lemma LeadsReaches(s: State, a: State, b: State)
    requires Reaches(s, a) && Leads(a, b)
    ensures Reaches(s, b)
  {
    var steps :| IsRun(a, steps) && RunsAcrossDays(a, steps) && Run(a, steps) == b;
    ReachesAlong(s, a, steps);
  }

  lemma {:induction false} ReachesAlong(s: State, a: State, steps: seq<Step>)
    requires Reaches(s, a) && IsRun(a, steps)
    ensures Reaches(s, Run(a, steps))
  {
    if steps == [] {
    } else {
      ReachesAlong(s, a, steps[..|steps| - 1]);
      ReachesStep(s, Run(a, steps[..|steps| - 1]), steps[|steps| - 1]);
    }
  }

  lemma ReachesStep(s: State, s': State, step: Step)
    requires Reaches(s, s') && Enabled(s', step)
    ensures Reaches(s, Next(s', step))
  {
    var steps :| IsRun(s, steps) && Run(s, steps) == s';
    Extend(s, steps, step);
  }

  lemma LeadsIsReaches(s: State, s': State)
    requires Leads(s, s')
    ensures Reaches(s, s')
  {
    var steps :| IsRun(s, steps) && RunsAcrossDays(s, steps) && Run(s, steps) == s';
  }

  /** The log with acknowledged messages in it is archived on its own day. */
  lemma EarlyTokenStrips(s: State, i: nat, name: Name) returns (s': State)
    requires Started(s) && s.token && s.today == s.currentDay && i < |s.writers| && s.writers[i].Resting?
    ensures Leads(s, s') && Shaped(s') && Durable(s') && s'.rotator.Opening? && s'.today == s'.currentDay
    ensures s'.currentDay !in s'.logs && Acknowledged(s', s'.currentDay) != [] && s'.writers == s.writers
  {
    var written := Delivers(s, i, name);
    LeadsKeeps(s, written);
    QuietStep(s, written, Receive);
    var locking := Next(written, Receive);
    s' := Strips(locking);
    LeadsOn(s, locking, s');
    LeadsKeeps(s, s');
  }

  lemma ReopenedShort(s: State)
    requires Shaped(s) && s.rotator.Opening? && s.today == s.currentDay
    requires s.currentDay !in s.logs && Acknowledged(s, s.currentDay) != []
    ensures Short(Next(s, OpenLog(true)))
  {
    StepKeepsShape(s, OpenLog(true));
    assert Wholes([]) == [];
  }

  /** Conservation without its hypothesis is false of every logger with a writer: from any
      started state, with every call succeeding, some run loses an acknowledged message. */
  lemma LossReachable(s: State, i: nat, name: Name) returns (s': State, day: Day)
    requires Started(s) && i < |s.writers| && s.writers[i].Resting?
    ensures Reaches(s, s') && !Kept(s', day)
  {
    var twice := TwoTokens(s, i, name);
    var stripped := EarlyTokenStrips(twice, i, name);
    LeadsOn(s, twice, stripped);
    LeadsIsReaches(s, stripped);
    ReopenedShort(stripped);
    ReachesStep(s, stripped, OpenLog(true));
    var reopened := Next(stripped, OpenLog(true));
    day := reopened.currentDay;
    s' := WriterLoses(reopened, i);
    LeadsReaches(s, reopened, s');
  }

  // ---- The exact condition

  lemma ReopenStarts(s: State)
    requires Shaped(s) && Durable(s) && s.rotator.Opening? && s.today == s.currentDay
    requires s.today in s.logs || Acknowledged(s, s.today) == []
    ensures Started(Next(s, OpenLog(true)))
  {
    var s' := Next(s, OpenLog(true));
    StepKeepsShape(s, OpenLog(true));
    assert Wholes([]) == [];
    assert InLog(s', s.today);
    ReopenKeepsOthers(s);
  }

  lemma ReopenKeepsOthers(s: State)
    requires Shaped(s) && Durable(s) && s.rotator.Opening? && s.today == s.currentDay
    ensures var s' := Next(s, OpenLog(true));
            (forall d :: Kept(s', d)) && forall d :: d > s'.currentDay ==> Unused(s', d)
  {
    var s' := Next(s, OpenLog(true));
    forall d ensures Kept(s', d) {
      assert Kept(s, d);
      if d != s.today {
        assert SameDay(s, s', d);
      }
    }
    forall d | d > s'.currentDay ensures Unused(s', d) {
      assert Unused(s, d) && SameDay(s, s', d);
    }
  }

  predicate Idle(s: State) {
    s.writers == [] && !s.token && (s.rotator.Waiting? || s.rotator.Off?)
  }

  /** Without a writer or a token nothing ever happens again. */
  lemma {:induction false} IdleStays(s: State, steps: seq<Step>)
    requires Idle(s) && IsRun(s, steps)
    ensures var s' := Run(s, steps);
            Idle(s') && s' == s.(today := s'.today, rotator := s'.rotator)
  {
    if steps == [] {
    } else {
      IdleStays(s, steps[..|steps| - 1]);
      IdleStep(Run(s, steps[..|steps| - 1]), steps[|steps| - 1]);
    }
  }

  lemma IdleStep(s: State, step: Step)
    requires Idle(s) && Enabled(s, step)
    ensures var s' := Next(s, step);
            Idle(s') && s' == s.(today := s'.today, rotator := s'.rotator)
  {
  }

  lemma IdleKeeps(s: State, s': State)
    requires Idle(s) && Leads(s, s') && forall d :: Kept(s, d)
    ensures forall d :: Kept(s', d)
  {
    var steps :| IsRun(s, steps) && RunsAcrossDays(s, steps) && Run(s, steps) == s';
    IdleStays(s, steps);
    forall d ensures Kept(s', d) {
      assert Kept(s, d);
    }
  }

  /** When a rotation reopens on the day it closed. It is harmless if and only if the log had not
      been removed, or held nothing acknowledged, or nobody is left to cause another rotation. In
      all other cases some later run loses a message, whether or not a token is waiting. */
  lemma SameDayReopenExact(s: State)
    requires Shaped(s) && Durable(s) && s.rotator.Opening? && s.today == s.currentDay
    ensures s.today in s.logs || Acknowledged(s, s.today) == [] || (s.writers == [] && !s.token)
       <==> forall later :: Leads(Next(s, OpenLog(true)), later) ==> forall d :: Kept(later, d)
  {
    var s' := Next(s, OpenLog(true));
    if s.today in s.logs || Acknowledged(s, s.today) == [] {
      ReopenStarts(s);
      forall later | Leads(s', later) ensures forall d :: Kept(later, d) {
        LeadsKeeps(s', later);
      }
    } else if s.writers == [] && !s.token {
      ReopenKeepsOthers(s);
      forall later | Leads(s', later) ensures forall d :: Kept(later, d) {
        IdleKeeps(s', later);
      }
    } else {
      ReopenedShort(s);
      if s.token {
        var later := NextRotationLoses(s');
      } else {
        var later := WriterLoses(s', 0);
      }
    }
  }
}
