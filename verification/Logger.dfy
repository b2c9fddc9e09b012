/** The log rotation protocol (cmd/logger/main.go) as a machine of interleaved steps:
    any number of writers, one rotation goroutine, one clock. Writers take the current
    file under the read lock, then use it outside the lock; rotation closes, archives
    and reopens under the write lock, and every one of its stages can fail. */
module Logger {
  import opened Wrappers

  type Day = int
  type Name = nat    // a log message
  type File = nat    // a handle, as returned by os.OpenFile

  /** What one call of WriteString leaves in a file. */
  datatype Entry = Whole(name: Name) | Torn(name: Name)

  datatype Handle = Handle(day: Day, inode: nat, open: bool)

  /** WriteMessage: before the read lock, after it, waiting on the rotation channel, and
      about to write through the file it took. */
  datatype Writer = Resting | Took(name: Name, day: Day, file: File) | Asking(name: Name, file: File) | Writing(name: Name, file: File)

  /** rotationTimer and rotateAndCompress; from Closing to Opening the write lock is held. */
  datatype Rotator =
    | Off | Waiting | Locking | Closing | Reading
    | Creating(data: seq<Entry>) | Filling(data: seq<Entry>) | Removing | Opening

  datatype State = State(
    today: Day,
    currentDay: Day, currentFile: File,
    handles: seq<Handle>,
    inodes: seq<seq<Entry>>,        // file contents, linked or not
    logs: map<Day, nat>,            // sbs_<day>.log, by inode
    archives: map<Day, seq<Entry>>, // sbs_<day>.log.gz
    token: bool,                    // the one slot of rotationChan
    writers: seq<Writer>,
    rotator: Rotator,
    acknowledged: map<Day, seq<Name>>)  // what WriteMessage returned nil for, by the day of the file written

  datatype Write = Full | Partial | Nothing

  datatype Step =
    | Tick(today: Day)
    | Take(writer: nat, name: Name)
    | Check(writer: nat)
    | Send(writer: nat)
    | Put(writer: nat, write: Write)
    | Receive
    | Lock
    | Close(ok: bool)
    | ReadLog(ok: bool)
    | CreateArchive(ok: bool)
    | FillArchive(written: nat)
    | RemoveLog(ok: bool)
    | OpenLog(ok: bool)
    | Cancel

  predicate LockHeld(s: State) {
    !s.rotator.Off? && !s.rotator.Waiting? && !s.rotator.Locking?
  }

  predicate Enabled(s: State, step: Step) {
    match step
    case Tick(_) => true
    case Take(i, _) => i < |s.writers| && s.writers[i].Resting? && !LockHeld(s)
    case Check(i) => i < |s.writers| && s.writers[i].Took?
    case Send(i) => i < |s.writers| && s.writers[i].Asking? && !s.token
    case Put(i, _) => i < |s.writers| && s.writers[i].Writing?
    case Receive => s.rotator.Waiting? && s.token
    case Lock => s.rotator.Locking?
    case Close(_) => s.rotator.Closing?
    case ReadLog(ok) => s.rotator.Reading? && (ok ==> s.currentDay in s.logs)
    case CreateArchive(_) => s.rotator.Creating?
    case FillArchive(_) => s.rotator.Filling?
    case RemoveLog(ok) => s.rotator.Removing? && (ok ==> s.currentDay in s.logs)
    case OpenLog(_) => s.rotator.Opening?
    case Cancel => s.rotator.Waiting?
  }

  function Contents(s: State, day: Day): seq<Entry>
    requires day in s.logs && s.logs[day] < |s.inodes|
  {
    s.inodes[s.logs[day]]
  }

  function Acknowledged(s: State, day: Day): seq<Name> {
    if day in s.acknowledged then s.acknowledged[day] else []
  }

  /** rotateFile: append to today's log, creating it if need be. */
  function Opened(s: State): State {
    var inode := if s.today in s.logs then s.logs[s.today] else |s.inodes|;
    s.(currentDay := s.today, currentFile := |s.handles|,
       handles := s.handles + [Handle(s.today, inode, true)],
       inodes := if s.today in s.logs then s.inodes else s.inodes + [[]],
       logs := s.logs[s.today := inode])
  }

  predicate Writes(s: State, file: File) {
    file < |s.handles| && s.handles[file].open && s.handles[file].inode < |s.inodes|
  }

  /** A write through an open file appends to it; through a closed one it is refused. */
  function Written(s: State, i: nat, write: Write): State
    requires i < |s.writers| && s.writers[i].Writing?
  {
    var Writing(name, file) := s.writers[i];
    var s' := s.(writers := s.writers[i := Resting]);
    if !Writes(s, file) || write.Nothing? then s'
    else
      var Handle(day, inode, _) := s.handles[file];
      var entry := if write.Full? then Whole(name) else Torn(name);
      s'.(inodes := s.inodes[inode := s.inodes[inode] + [entry]],
          acknowledged := if write.Full? then s.acknowledged[day := Acknowledged(s, day) + [name]] else s.acknowledged)
  }

  function Shut(handles: seq<Handle>, file: File): seq<Handle> {
    if file < |handles| then handles[file := handles[file].(open := false)] else handles
  }

  /** File.Close closes the file even when it reports an error. */
  function ClosedFile(s: State): State {
    s.(handles := Shut(s.handles, s.currentFile))
  }

  predicate CurrentOpen(s: State) {
    s.currentFile < |s.handles| && s.handles[s.currentFile].open
  }

  function Next(s: State, step: Step): State
    requires Enabled(s, step)
  {
    match step
    case Tick(today) => s.(today := today)
    case Take(i, name) => s.(writers := s.writers[i := Took(name, s.currentDay, s.currentFile)])
    case Check(i) =>
      var Took(name, day, file) := s.writers[i];
      s.(writers := s.writers[i := if day != s.today then Asking(name, file) else Writing(name, file)])
    case Send(i) => s.(token := true, writers := s.writers[i := Writing(s.writers[i].name, s.writers[i].file)])
    case Put(i, write) => Written(s, i, write)
    case Receive => s.(token := false, rotator := Locking)
    case Lock => s.(rotator := Closing)
    case Close(ok) => ClosedFile(s).(rotator := if ok && CurrentOpen(s) then Reading else Waiting)
    case ReadLog(ok) =>
      s.(rotator := if ok && s.logs[s.currentDay] < |s.inodes| then Creating(Contents(s, s.currentDay)) else Opening)
    case CreateArchive(ok) =>
      if ok then s.(archives := s.archives[s.currentDay := []], rotator := Filling(s.rotator.data))
      else s.(rotator := Opening)
    case FillArchive(written) =>
      var data := s.rotator.data;
      if written >= |data| then s.(archives := s.archives[s.currentDay := data], rotator := Removing)
      else s.(archives := s.archives[s.currentDay := data[..written]], rotator := Opening)
    case RemoveLog(ok) => s.(logs := if ok then s.logs - {s.currentDay} else s.logs, rotator := Opening)
    case OpenLog(ok) => if ok then Opened(s).(rotator := Waiting) else s.(rotator := Waiting)
    case Cancel => s.(rotator := Off)
  }

  // ---- Runs

  ghost predicate IsRun(s: State, steps: seq<Step>)
    decreases |steps|, 0
  {
    steps == [] || (IsRun(s, steps[..|steps| - 1]) && Enabled(Run(s, steps[..|steps| - 1]), steps[|steps| - 1]))
  }

  ghost function Run(s: State, steps: seq<Step>): State
    requires IsRun(s, steps)
    decreases |steps|, 1
  {
    if steps == [] then s else Next(Run(s, steps[..|steps| - 1]), steps[|steps| - 1])
  }

  // ---- The invariant

  /** The messages that stand whole in a file, in order. */
  function Wholes(entries: seq<Entry>): seq<Name> {
    if entries == [] then []
    else
      var before := Wholes(entries[..|entries| - 1]);
      match entries[|entries| - 1]
      case Whole(name) => before + [name]
      case Torn(_) => before
  }

  ghost predicate InLog(s: State, day: Day) {
    day in s.logs && s.logs[day] < |s.inodes| && Wholes(Contents(s, day)) == Acknowledged(s, day)
  }

  ghost predicate InArchive(s: State, day: Day) {
    day in s.archives && Wholes(s.archives[day]) == Acknowledged(s, day)
  }

  /** Everything acknowledged for the day stands, whole and in order, in one of its files. */
  ghost predicate Kept(s: State, day: Day) {
    Acknowledged(s, day) == [] || InLog(s, day) || InArchive(s, day)
  }

  predicate RefersTo(w: Writer, files: nat) {
    match w
    case Resting => true
    case Took(_, _, file) => file < files
    case Asking(_, file) => file < files
    case Writing(_, file) => file < files
  }

  predicate Archiving(r: Rotator) {
    r.Reading? || r.Creating? || r.Filling? || r.Removing? || r.Opening?
  }

  /** At most one file is open: the current one, and it is the current day's log. */
  ghost predicate Shaped(s: State) {
    && s.currentFile < |s.handles| && s.handles[s.currentFile].day == s.currentDay
    && (forall f :: 0 <= f < |s.handles| && s.handles[f].open ==> f == s.currentFile)
    && (forall i :: 0 <= i < |s.writers| ==> RefersTo(s.writers[i], |s.handles|))
    && (forall d :: d in s.logs ==> s.logs[d] < |s.inodes|)
    && (forall d, e :: d in s.logs && e in s.logs && d != e ==> s.logs[d] != s.logs[e])
    && (CurrentOpen(s) ==> s.currentDay in s.logs && s.logs[s.currentDay] == s.handles[s.currentFile].inode)
    && (Archiving(s.rotator) ==> !CurrentOpen(s))
  }

  /** A day yet to come starts with exactly what its log already holds. */
  ghost predicate Unused(s: State, day: Day) {
    if day in s.logs then InLog(s, day) else Acknowledged(s, day) == []
  }

  /** Nothing acknowledged is lost, and what rotation relies on at each of its stages. */
  ghost predicate Durable(s: State) {
    && (forall d :: Kept(s, d))
    && (forall d :: d > s.currentDay ==> Unused(s, d))
    && (CurrentOpen(s) || s.rotator.Reading? || s.rotator.Creating? || s.rotator.Filling? ==> InLog(s, s.currentDay))
    && (s.rotator.Creating? || s.rotator.Filling? ==> Wholes(s.rotator.data) == Acknowledged(s, s.currentDay))
    && (s.rotator.Removing? ==> InArchive(s, s.currentDay))
    && (s.rotator.Removing? || s.rotator.Opening? ==> s.currentDay in s.logs ==> InLog(s, s.currentDay))
  }

  /** After a successful Start: today's log is open and holds all that was acknowledged for
      today, earlier days are kept somewhere, and the rotation channel may already hold a
      token from a message that came too early. */
  ghost predicate Started(s: State) {
    Shaped(s) && Durable(s) && s.rotator.Waiting? && CurrentOpen(s)
  }

  /** Start, when it succeeds. */
  function Launched(s: State): State {
    Opened(s).(rotator := Waiting)
  }

  /** Before Start: no file is open, and what earlier processes acknowledged stands on the disk. */
  ghost predicate Prepared(s: State) {
    && s.handles == [] && s.rotator.Off?
    && (forall i :: 0 <= i < |s.writers| ==> s.writers[i].Resting?)
    && (forall d :: d in s.logs ==> s.logs[d] < |s.inodes|)
    && (forall d, e :: d in s.logs && e in s.logs && d != e ==> s.logs[d] != s.logs[e])
    && (forall d :: Kept(s, d)) && (forall d :: d >= s.today ==> Unused(s, d))
  }

  lemma StartEstablishes(s: State)
    requires Prepared(s)
    ensures Started(Launched(s))
  {
    var s' := Launched(s);
    assert Unused(s, s.today);
    forall d ensures Kept(s', d) {
      assert Kept(s, d);
      if d != s.today {
        assert SameDay(s, s', d);
      }
    }
    forall d | d > s'.currentDay ensures Unused(s', d) {
      assert Unused(s, d) && SameDay(s, s', d);
    }
  }

  // ---- Every step keeps the shape

  lemma StepKeepsShape(s: State, step: Step)
    requires Shaped(s) && Enabled(s, step)
    ensures Shaped(Next(s, step))
  {
    match step
    case Take(_, _) => WriterKeepsShape(s, step);
    case Check(_) => WriterKeepsShape(s, step);
    case Send(_) => WriterKeepsShape(s, step);
    case Put(_, _) => PutKeepsShape(s, step);
    case Close(_) => ClosingKeepsShape(s, step);
    case OpenLog(_) => OpeningKeepsShape(s, step);
    case _ => OtherKeepsShape(s, step);
  }

  lemma WriterKeepsShape(s: State, step: Step)
    requires Shaped(s) && Enabled(s, step) && (step.Take? || step.Check? || step.Send?)
    ensures Shaped(Next(s, step))
  {
    assert RefersTo(s.writers[step.writer], |s.handles|);
    var s' := Next(s, step);
    assert s' == s.(writers := s'.writers, token := s'.token);
  }

  lemma PutKeepsShape(s: State, step: Step)
    requires Shaped(s) && Enabled(s, step) && step.Put?
    ensures Shaped(Next(s, step))
  {
    var s' := Next(s, step);
    assert s' == s.(writers := s'.writers, inodes := s'.inodes, acknowledged := s'.acknowledged);
    assert |s'.inodes| == |s.inodes|;
  }

  lemma OtherKeepsShape(s: State, step: Step)
    requires Shaped(s) && Enabled(s, step)
    requires !step.Take? && !step.Check? && !step.Send? && !step.Put? && !step.Close? && !step.OpenLog?
    ensures Shaped(Next(s, step))
  {
    var s' := Next(s, step);
    assert s' == s.(today := s'.today, archives := s'.archives, logs := s'.logs, token := s'.token, rotator := s'.rotator);
    assert s'.logs == s.logs || (!CurrentOpen(s) && s'.logs == s.logs - {s.currentDay});
  }

  lemma OpeningKeepsShape(s: State, step: Step)
    requires Shaped(s) && Enabled(s, step) && step.OpenLog?
    ensures Shaped(Next(s, step))
  {
    var s' := Next(s, step);
    forall i | 0 <= i < |s'.writers| ensures RefersTo(s'.writers[i], |s'.handles|) {
      assert RefersTo(s.writers[i], |s.handles|);
    }
  }

  lemma ClosingKeepsShape(s: State, step: Step)
    requires Shaped(s) && Enabled(s, step) && step.Close?
    ensures Shaped(Next(s, step)) && !CurrentOpen(Next(s, step))
  {
    var s' := Next(s, step);
    forall i | 0 <= i < |s'.writers| ensures RefersTo(s'.writers[i], |s'.handles|) {
      assert RefersTo(s.writers[i], |s.handles|);
    }
  }

  // ---- Every step across days keeps what was acknowledged

  /** Rotation reopens on a later day than the one it closed. */
  ghost predicate AcrossDays(s: State, step: Step) {
    step.OpenLog? && step.ok ==> s.currentDay < s.today
  }

  /** The files and what was acknowledged for one day are as they were. */
  ghost predicate SameDay(s: State, s': State, d: Day) {
    && Acknowledged(s', d) == Acknowledged(s, d)
    && (d in s'.archives <==> d in s.archives) && (d in s.archives ==> s'.archives[d] == s.archives[d])
    && (d in s'.logs <==> d in s.logs)
    && (d in s.logs && s.logs[d] < |s.inodes| ==> s'.logs[d] < |s'.inodes| && Contents(s', d) == Contents(s, d))
  }

  lemma DurableElsewhere(s: State, s': State)
    requires Shaped(s) && Durable(s) && s'.currentDay == s.currentDay && Kept(s', s.currentDay)
    requires forall d :: d != s.currentDay ==> SameDay(s, s', d)
    ensures forall d :: Kept(s', d)
    ensures forall d :: d > s'.currentDay ==> Unused(s', d)
  {
    forall d ensures Kept(s', d) {
      assert Kept(s, d);
      if d != s.currentDay {
        assert SameDay(s, s', d);
      }
    }
    forall d | d > s'.currentDay ensures Unused(s', d) {
      assert SameDay(s, s', d) && Unused(s, d);
    }
  }

  /** Steps that touch no file and acknowledge nothing. */
  lemma QuietKeepsDurable(s: State, step: Step)
    requires Shaped(s) && Durable(s) && Enabled(s, step)
    requires !step.Put? && !(step.CreateArchive? && step.ok) && !step.FillArchive?
    requires !(step.RemoveLog? && step.ok) && !(step.OpenLog? && step.ok)
    ensures Durable(Next(s, step))
  {
    var s' := Next(s, step);
    if step.Close? {
      ClosingKeepsShape(s, step);
    }
    assert CurrentOpen(s') ==> CurrentOpen(s);
    FilesKept(s, s');
  }

  lemma FilesKept(s: State, s': State)
    requires Shaped(s) && Durable(s)
    requires s'.logs == s.logs && s'.inodes == s.inodes && s'.archives == s.archives
    requires s'.acknowledged == s.acknowledged && s'.currentDay == s.currentDay
    requires CurrentOpen(s') ==> CurrentOpen(s)
    requires s'.rotator.Reading? ==> CurrentOpen(s) || s.rotator.Reading?
    requires s'.rotator.Creating? ==> s'.rotator == s.rotator || (s.rotator.Reading? && s'.rotator.data == Contents(s, s.currentDay))
    requires s'.rotator.Filling? || s'.rotator.Removing? ==> s'.rotator == s.rotator
    requires s'.rotator.Opening? ==> s.rotator.Opening? || s.rotator.Reading? || s.rotator.Creating? || s.rotator.Removing?
    ensures Durable(s')
  {
    assert forall d :: SameDay(s, s', d);
    assert InLog(s, s.currentDay) ==> InLog(s', s.currentDay);
    assert Kept(s, s.currentDay);
    DurableElsewhere(s, s');
  }

  lemma WholesSnoc(entries: seq<Entry>, entry: Entry)
    ensures Wholes(entries + [entry])
         == if entry.Whole? then Wholes(entries) + [entry.name] else Wholes(entries)
  {
    assert (entries + [entry])[..|entries|] == entries;
  }

  lemma PutKeepsDurable(s: State, step: Step)
    requires Shaped(s) && Durable(s) && Enabled(s, step) && step.Put?
    ensures Durable(Next(s, step))
  {
    var w := s.writers[step.writer];
    assert RefersTo(w, |s.handles|);
    if s.handles[w.file].open && !step.write.Nothing? {
      AppendKeepsDurable(s, Next(s, step), if step.write.Full? then Whole(w.name) else Torn(w.name));
    } else {
      FilesKept(s, Next(s, step));
    }
  }

  lemma AppendKeepsDurable(s: State, s': State, entry: Entry)
    requires Shaped(s) && Durable(s) && CurrentOpen(s)
    requires var log := Contents(s, s.currentDay) + [entry];
             s' == s.(writers := s'.writers, inodes := s.inodes[s.logs[s.currentDay] := log],
                      acknowledged := if entry.Torn? then s.acknowledged
                                      else s.acknowledged[s.currentDay := Acknowledged(s, s.currentDay) + [entry.name]])
    ensures Durable(s')
  {
    assert InLog(s, s.currentDay);
    WholesSnoc(Contents(s, s.currentDay), entry);
    assert InLog(s', s.currentDay);
    forall d | d != s.currentDay ensures SameDay(s, s', d) {}
    DurableElsewhere(s, s');
  }

  lemma ArchivingKeepsDurable(s: State, step: Step)
    requires Shaped(s) && Durable(s) && Enabled(s, step)
    requires (step.CreateArchive? && step.ok) || step.FillArchive?
    ensures Durable(Next(s, step))
  {
    var s' := Next(s, step);
    assert InLog(s', s.currentDay) by { assert InLog(s, s.currentDay); }
    DurableElsewhere(s, s');
  }

  lemma RemovingKeepsDurable(s: State, step: Step)
    requires Shaped(s) && Durable(s) && Enabled(s, step) && step.RemoveLog?
    ensures Durable(Next(s, step))
  {
    var s' := Next(s, step);
    assert InArchive(s', s.currentDay) by { assert InArchive(s, s.currentDay); }
    DurableElsewhere(s, s');
  }

  lemma OpeningKeepsDurable(s: State, step: Step)
    requires Shaped(s) && Durable(s) && Enabled(s, step) && step.OpenLog? && step.ok && AcrossDays(s, step)
    ensures Durable(Next(s, step))
  {
    var s' := Next(s, step);
    assert Unused(s, s.today);
    assert InLog(s', s.today);
    forall d ensures Kept(s', d) {
      assert Kept(s, d);
      if d != s.today {
        assert SameDay(s, s', d);
      }
    }
    forall d | d > s'.currentDay ensures Unused(s', d) {
      assert Unused(s, d) && SameDay(s, s', d);
    }
  }

  lemma StepKeepsDurable(s: State, step: Step)
    requires Shaped(s) && Durable(s) && Enabled(s, step) && AcrossDays(s, step)
    ensures Durable(Next(s, step))
  {
    if step.Put? {
      PutKeepsDurable(s, step);
    } else if (step.CreateArchive? && step.ok) || step.FillArchive? {
      ArchivingKeepsDurable(s, step);
    } else if step.RemoveLog? {
      RemovingKeepsDurable(s, step);
    } else if step.OpenLog? && step.ok {
      OpeningKeepsDurable(s, step);
    } else {
      QuietKeepsDurable(s, step);
    }
  }

  ghost predicate RunsAcrossDays(s: State, steps: seq<Step>)
    requires IsRun(s, steps)
    decreases |steps|
  {
    steps == [] ||
    (RunsAcrossDays(s, steps[..|steps| - 1]) && AcrossDays(Run(s, steps[..|steps| - 1]), steps[|steps| - 1]))
  }

  /** At every moment of every interleaving at most one file is open. */
  lemma {:induction false} OneFileOpen(s: State, steps: seq<Step>)
    requires Shaped(s) && IsRun(s, steps)
    ensures Shaped(Run(s, steps))
  {
    if steps == [] {
    } else {
      OneFileOpen(s, steps[..|steps| - 1]);
      StepKeepsShape(Run(s, steps[..|steps| - 1]), steps[|steps| - 1]);
    }
  }

  /** Conservation: as long as rotation only runs across days, then after every step of every
      interleaving, with writes, compression and opening failing at any stage, every message
      acknowledged for a day stands whole and in order in that day's log or archive. */
  lemma {:induction false} NothingAcknowledgedIsLost(s: State, steps: seq<Step>)
    requires Started(s) && IsRun(s, steps) && RunsAcrossDays(s, steps)
    ensures Durable(Run(s, steps)) && forall d :: Kept(Run(s, steps), d)
  {
    if steps == [] {
    } else {
      NothingAcknowledgedIsLost(s, steps[..|steps| - 1]);
      OneFileOpen(s, steps[..|steps| - 1]);
      StepKeepsDurable(Run(s, steps[..|steps| - 1]), steps[|steps| - 1]);
    }
  }

  /** A write through a file that rotation has closed changes no file and acknowledges
      nothing; a write that is acknowledged ends in the log of the current day. */
  lemma StaleWriteRefused(s: State, i: nat, write: Write)
    requires Shaped(s) && Enabled(s, Put(i, write))
    ensures var s' := Next(s, Put(i, write));
            var file := s.writers[i].file;
            && (file != s.currentFile || !CurrentOpen(s) ==> s' == s.(writers := s.writers[i := Resting]))
            && (s'.acknowledged != s.acknowledged ==>
                  && file == s.currentFile && s.currentDay in s'.logs
                  && Contents(s', s.currentDay) == Contents(s, s.currentDay) + [Whole(s.writers[i].name)]
                  && Acknowledged(s', s.currentDay) == Acknowledged(s, s.currentDay) + [s.writers[i].name])
  {
    assert RefersTo(s.writers[i], |s.handles|);
  }

  // ---- The source's form

  predicate IsRotatorStep(step: Step) {
    match step
    case Tick(_) => false
    case Take(_, _) => false
    case Check(_) => false
    case Send(_) => false
    case Put(_, _) => false
    case _ => true
  }

  /** How many steps the rotation goroutine is from its next receive. */
  function Distance(r: Rotator): nat {
    match r
    case Off => 0
    case Waiting => 0
    case Opening => 1
    case Removing => 2
    case Filling(_) => 3
    case Creating(_) => 4
    case Reading => 5
    case Closing => 6
    case Locking => 7
  }

  /** The answers of the operating system to one rotation; `written` is how much of the data
      the archive takes. */
  datatype Fate = Fate(close: bool, read: bool, create: bool, written: nat, remove: bool, open: bool)

  predicate Rotating(r: Rotator) {
    !r.Off? && !r.Waiting?
  }

  function Choice(s: State, fate: Fate): (step: Step)
    requires Rotating(s.rotator)
    ensures Enabled(s, step) && IsRotatorStep(step)
  {
    match s.rotator
    case Locking => Lock
    case Closing => Close(fate.close)
    case Reading => ReadLog(fate.read && s.currentDay in s.logs)
    case Creating(_) => CreateArchive(fate.create)
    case Filling(_) => FillArchive(fate.written)
    case Removing => RemoveLog(fate.remove && s.currentDay in s.logs)
    case Opening => OpenLog(fate.open)
  }

  /** The rotation goroutine going on alone until it is at most `n` steps from its next receive. */
  function Advance(s: State, fate: Fate, n: nat): State
    decreases Distance(s.rotator)
  {
    if Distance(s.rotator) <= n then s else Advance(Next(s, Choice(s, fate)), fate, n)
  }

  lemma {:induction false} AdvanceOn(s: State, fate: Fate, m: nat, n: nat)
    requires n <= m
    ensures Advance(Advance(s, fate, m), fate, n) == Advance(s, fate, n)
    decreases Distance(s.rotator)
  {
    if Distance(s.rotator) > m {
      AdvanceOn(Next(s, Choice(s, fate)), fate, m, n);
    }
  }

  /** A rotation ends at a failed Close; otherwise it goes on from the closed file. */
  lemma RotationIs(s: State, fate: Fate)
    requires s.rotator.Locking?
    ensures Advance(s, fate, 0)
         == if fate.close && CurrentOpen(s) then Advance(ClosedFile(s).(rotator := Reading), fate, 0)
            else ClosedFile(s).(rotator := Waiting)
  {
    var closing := Next(s, Lock);
    assert Advance(s, fate, 0) == Advance(closing, fate, 0);
    assert Advance(closing, fate, 0) == Advance(Next(closing, Close(fate.close)), fate, 0);
  }

  /** What compression leaves behind: the log stands unless the archive holds all of it. */
  lemma CompressionIs(s: State, fate: Fate)
    requires s.rotator.Reading? && forall d :: d in s.logs ==> s.logs[d] < |s.inodes|
    ensures var day := s.currentDay;
            var s' := Advance(s, fate, 1);
            if !fate.read || day !in s.logs || !fate.create then s' == s.(rotator := Opening)
            else
              var data := Contents(s, day);
              var all := fate.written >= |data|;
              s' == s.(archives := s.archives[day := []][day := if all then data else data[..fate.written]],
                       logs := if all && fate.remove then s.logs - {day} else s.logs, rotator := Opening)
  {
    var creating := Next(s, Choice(s, fate));
    if creating.rotator.Creating? {
      var filling := Next(creating, Choice(creating, fate));
      assert Advance(s, fate, 1) == Advance(filling, fate, 1);
      if filling.rotator.Filling? {
        var removing := Next(filling, Choice(filling, fate));
        assert Advance(filling, fate, 1) == Advance(removing, fate, 1);
        if removing.rotator.Removing? {
          assert Advance(removing, fate, 1) == Next(removing, Choice(removing, fate));
        }
      }
    }
  }

  /** What the code does in one go is a run of the machine, of rotation steps alone. */
  lemma {:induction false} AdvanceIsRun(s: State, fate: Fate, n: nat) returns (steps: seq<Step>)
    ensures IsRun(s, steps) && Run(s, steps) == Advance(s, fate, n)
    ensures |steps| <= Distance(s.rotator) && forall i :: 0 <= i < |steps| ==> IsRotatorStep(steps[i])
    decreases Distance(s.rotator)
  {
    steps := [];
    if Distance(s.rotator) > n {
      var step := Choice(s, fate);
      var rest := AdvanceIsRun(Next(s, step), fate, n);
      RunCons(s, step, rest);
      steps := [step] + rest;
    }
  }

  lemma {:induction false} RunCons(s: State, step: Step, steps: seq<Step>)
    requires Enabled(s, step) && IsRun(Next(s, step), steps)
    ensures IsRun(s, [step] + steps) && Run(s, [step] + steps) == Run(Next(s, step), steps)
  {
    if steps == [] {
      assert [] + [step] == [step] + steps;
      assert IsRun(s, []) && Run(s, []) == s;
      Extend(s, [], step);
    } else {
      var front, last := steps[..|steps| - 1], steps[|steps| - 1];
      RunCons(s, step, front);
      Extend(s, [step] + front, last);
      assert [step] + front + [last] == [step] + steps;
    }
  }

  /** One WriteMessage going on alone up to its write: take the file, compare the dates, ask for
      a rotation if they differ. */
  function Arrived(s: State, i: nat, name: Name): State
    requires Enabled(s, Take(i, name)) && (s.currentDay == s.today || !s.token)
  {
    var checked := Next(Next(s, Take(i, name)), Check(i));
    if checked.writers[i].Asking? then Next(checked, Send(i)) else checked
  }

  /** A rotation is asked for exactly when the file taken is not today's, and the write goes to
      that file all the same. */
  lemma ArrivedIs(s: State, i: nat, name: Name)
    requires Enabled(s, Take(i, name)) && (s.currentDay == s.today || !s.token)
    ensures Arrived(s, i, name)
         == s.(token := s.token || s.currentDay != s.today, writers := s.writers[i := Writing(name, s.currentFile)])
  {
    var took := Next(s, Take(i, name));
    assert took == s.(writers := s.writers[i := Took(name, s.currentDay, s.currentFile)]);
    assert took.writers[i := Writing(name, s.currentFile)] == s.writers[i := Writing(name, s.currentFile)];
    var asking := Asking(name, s.currentFile);
    assert took.writers[i := asking][i := Writing(name, s.currentFile)] == s.writers[i := Writing(name, s.currentFile)];
  }

  class Disk {
    var today: Day
    var handles: seq<Handle>
    var inodes: seq<seq<Entry>>
    var logs: map<Day, nat>
    var archives: map<Day, seq<Entry>>

    /** Every name leads to a file. */
    ghost predicate Valid()
      reads this
    {
      forall d :: d in logs ==> logs[d] < |inodes|
    }

    method Close(file: File, ok: bool) returns (closed: bool)
      modifies `handles
      ensures closed == (ok && file < |old(handles)| && old(handles)[file].open)
      ensures handles == Shut(old(handles), file)
    {
      closed := ok && file < |handles| && handles[file].open;
      if file < |handles| { handles := handles[file := handles[file].(open := false)]; }
    }

    method WriteString(file: File, name: Name, write: Write) returns (ok: bool)
      modifies `inodes
      ensures ok ==> write.Full?
      ensures var open := file < |handles| && handles[file].open && handles[file].inode < |old(inodes)|;
              && ok == (open && write.Full?)
              && inodes == if !open || write.Nothing? then old(inodes)
                           else old(inodes)[handles[file].inode := old(inodes)[handles[file].inode]
                                            + [if write.Full? then Whole(name) else Torn(name)]]
    {
      if file >= |handles| || !handles[file].open || handles[file].inode >= |inodes| || write.Nothing? { return false; }
      var inode := handles[file].inode;
      inodes := inodes[inode := inodes[inode] + [if write.Full? then Whole(name) else Torn(name)]];
      return write.Full?;
    }

    method ReadLog(day: Day, ok: bool) returns (data: Option<seq<Entry>>)
      ensures data == if ok && day in logs && logs[day] < |inodes| then Some(inodes[logs[day]]) else None
    {
      data := None;
      if ok && day in logs && logs[day] < |inodes| { data := Some(inodes[logs[day]]); }
    }

    method CreateArchive(day: Day, ok: bool)
      modifies `archives
      ensures archives == if ok then old(archives)[day := []] else old(archives)
    {
      if ok { archives := archives[day := []]; }
    }

    method WriteArchive(day: Day, data: seq<Entry>, written: nat) returns (ok: bool)
      modifies `archives
      ensures ok == (written >= |data|)
      ensures archives == old(archives)[day := if ok then data else data[..written]]
    {
      ok := written >= |data|;
      archives := archives[day := if ok then data else data[..written]];
    }

    method RemoveLog(day: Day, ok: bool)
      modifies `logs
      ensures logs == if ok then old(logs) - {day} else old(logs)
    {
      if ok { logs := logs - {day}; }
    }

    method OpenLog(day: Day) returns (file: File)
      modifies `handles, `inodes, `logs
      ensures var inode := if day in old(logs) then old(logs)[day] else |old(inodes)|;
              && file == |old(handles)| && handles == old(handles) + [Handle(day, inode, true)]
              && inodes == (if day in old(logs) then old(inodes) else old(inodes) + [[]])
              && logs == old(logs)[day := inode]
    {
      if day !in logs {
        logs := logs[day := |inodes|];
        inodes := inodes + [[]];
      }
      file := |handles|;
      handles := handles + [Handle(day, logs[day], true)];
    }
  }

  class Logger {
    const disk: Disk
    var currentFile: File
    var currentDate: Day
    var rotationChan: bool                          // its one slot is taken
    ghost var writers: seq<Writer>                  // other goroutines in WriteMessage
    ghost var acknowledged: map<Day, seq<Name>>

    constructor (disk: Disk)
      ensures this.disk == disk && !rotationChan && writers == [] && acknowledged == map[]
    {
      this.disk, currentFile, currentDate, rotationChan := disk, 0, 0, false;
      writers, acknowledged := [], map[];
    }

    /** This object as a state of the machine, given where its rotation goroutine is. */
    ghost function View(rotator: Rotator): State
      reads this, disk
    {
      State(disk.today, currentDate, currentFile, disk.handles, disk.inodes, disk.logs, disk.archives,
            rotationChan, writers, rotator, acknowledged)
    }

    /** The rotation goroutine is started only when today's log could be opened. */
    method Start(fate: Fate) returns (ok: bool)
      modifies `currentFile, `currentDate, disk
      ensures ok == fate.open
      ensures if ok then View(Waiting) == Launched(old(View(Off))) else View(Off) == old(View(Off))
    {
      ok := RotateFile(fate);
    }

    /** Opens today's log; a failure leaves file and date as they were. */
    method RotateFile(fate: Fate) returns (ok: bool)
      modifies `currentFile, `currentDate, disk
      ensures ok == fate.open
      ensures View(Waiting) == Advance(old(View(Opening)), fate, 0)
    {
      if !fate.open { return false; }
      var today := disk.today;
      var file := disk.OpenLog(today);
      currentFile := file;
      currentDate := today;
      return true;
    }

    /** Reads the log, copies it to its archive, removes it; stops at the first failure. */
    method CompressFile(day: Day, fate: Fate) returns (ok: bool)
      requires day == currentDate && disk.Valid()
      modifies disk
      ensures View(Opening) == Advance(old(View(Reading)), fate, 1)
      ensures ok ==> day !in disk.logs && day in disk.archives && day in old(disk.logs)
                     && disk.archives[day] == old(Contents(View(Reading), day))
      ensures !ok ==> disk.logs == old(disk.logs)
    {
      CompressionIs(View(Reading), fate);
      var data := disk.ReadLog(day, fate.read);
      if data.None? || !fate.create { return false; }
      disk.CreateArchive(day, true);
      ok := disk.WriteArchive(day, data.value, fate.written);
      if !ok || !fate.remove { return false; }
      disk.RemoveLog(day, true);
    }

    method RotateAndCompress(fate: Fate) returns (ok: bool)
      requires disk.Valid()
      modifies `currentFile, `currentDate, disk
      ensures View(Waiting) == Advance(old(View(Locking)), fate, 0)
      ensures ok == (fate.close && fate.open && old(CurrentOpen(View(Locking))))
    {
      RotationIs(View(Locking), fate);
      var closed := disk.Close(currentFile, fate.close);
      if !closed { return false; }
      ghost var reading := View(Reading);
      var compressed := CompressFile(currentDate, fate);
      AdvanceOn(reading, fate, 1, 0);
      hide Advance;
      ok := RotateFile(fate);
    }

    method WriteMessage(name: Name, write: Write, ghost i: nat) returns (ok: bool)
      requires Enabled(View(Waiting), Take(i, name))
      requires currentDate == disk.today || !rotationChan  // otherwise it waits for its turn
      modifies `rotationChan, `writers, `acknowledged, disk
      ensures View(Waiting) == Next(Arrived(old(View(Waiting)), i, name), Put(i, write))
      ensures ok == (write.Full? && old(Writes(View(Waiting), currentFile)))
    {
      ghost var before := View(Waiting);
      var currentDate', currentFile' := currentDate, currentFile;
      if currentDate' != disk.today { rotationChan := true; }
      writers := writers[i := Writing(name, currentFile')];
      ArrivedIs(before, i, name);
      ok := WriteFile(name, currentFile', write, i);
    }

    method WriteFile(name: Name, file: File, write: Write, ghost i: nat) returns (ok: bool)
      requires i < |writers| && writers[i] == Writing(name, file)
      modifies `writers, `acknowledged, disk
      ensures View(Waiting) == Written(old(View(Waiting)), i, write)
      ensures ok == (write.Full? && old(Writes(View(Waiting), file)))
    {
      ok := disk.WriteString(file, name, write);
      writers := writers[i := Resting];
      if ok {
        var day := disk.handles[file].day;
        acknowledged := acknowledged[day := (if day in acknowledged then acknowledged[day] else []) + [name]];
      }
    }
  }

  lemma Extend(s: State, steps: seq<Step>, step: Step)
    requires IsRun(s, steps) && Enabled(Run(s, steps), step)
    ensures IsRun(s, steps + [step]) && Run(s, steps + [step]) == Next(Run(s, steps), step)
  {
    assert (steps + [step])[..|steps|] == steps;
  }

  // ---- No writer waits for ever

  /** Whatever the files do, the rotation goroutine can move, unless it waits for a token. */
  lemma RotatorCanMove(s: State)
    requires !s.rotator.Off? && (s.rotator.Waiting? ==> s.token)
    ensures exists step :: IsRotatorStep(step) && !step.Cancel? && Enabled(s, step)
  {
    var step :=
      match s.rotator
      case Off => Receive
      case Waiting => Receive
      case Locking => Lock
      case Closing => Close(false)
      case Reading => ReadLog(false)
      case Creating(_) => CreateArchive(false)
      case Filling(_) => FillArchive(0)
      case Removing => RemoveLog(false)
      case Opening => OpenLog(false);
    assert IsRotatorStep(step) && !step.Cancel? && Enabled(s, step);
  }

  /** A writer that waits on the channel holds no lock. It or the rotation goroutine can move
      exactly unless that goroutine is gone and the channel full. */
  lemma WriterNeverStuck(s: State, i: nat)
    requires i < |s.writers| && s.writers[i].Asking?
    ensures (Enabled(s, Send(i)) || exists step :: IsRotatorStep(step) && !step.Cancel? && Enabled(s, step))
       <==> !s.rotator.Off? || !s.token
  {
    if s.token && !s.rotator.Off? {
      RotatorCanMove(s);
    }
  }

  /** And in that case it waits for ever: after the context is cancelled nobody empties the channel. */
  lemma {:induction false} StuckForGood(s: State, steps: seq<Step>, i: nat)
    requires IsRun(s, steps) && s.rotator.Off? && s.token && i < |s.writers| && s.writers[i].Asking?
    ensures var s' := Run(s, steps);
            s'.rotator.Off? && s'.token && |s'.writers| == |s.writers| && s'.writers[i] == s.writers[i]
  {
    if steps == [] {
    } else {
      StuckForGood(s, steps[..|steps| - 1], i);
      StuckStep(Run(s, steps[..|steps| - 1]), steps[|steps| - 1], i);
    }
  }

  lemma StuckStep(s: State, step: Step, i: nat)
    requires Enabled(s, step) && s.rotator.Off? && s.token && i < |s.writers| && s.writers[i].Asking?
    ensures var s' := Next(s, step);
            s'.rotator.Off? && s'.token && |s'.writers| == |s.writers| && s'.writers[i] == s.writers[i]
  {
  }

  // ---- A failed Close or reopen is final

  /** No file is open and no rotation is past its Close. */
  predicate IsShut(s: State) {
    !CurrentOpen(s) && !Archiving(s.rotator)
  }

  lemma ShutStays(s: State, step: Step)
    requires Shaped(s) && IsShut(s) && Enabled(s, step)
    ensures var s' := Next(s, step);
            IsShut(s') && s'.acknowledged == s.acknowledged && s'.inodes == s.inodes
            && s'.logs == s.logs && s'.archives == s.archives
  {
    if step.Put? {
      StaleWriteRefused(s, step.writer, step.write);
    } else if step.Close? {
      ClosingKeepsShape(s, step);
    }
  }

  /** Once a rotation has ended without an open file no later one gets past its Close: no
      message is acknowledged and no file changes again, in any run. */
  lemma {:induction false} ClosedForGood(s: State, steps: seq<Step>)
    requires Shaped(s) && IsShut(s) && IsRun(s, steps)
    ensures var s' := Run(s, steps);
            Shaped(s') && IsShut(s') && s'.acknowledged == s.acknowledged && s'.inodes == s.inodes
            && s'.logs == s.logs && s'.archives == s.archives
  {
    if steps == [] {
    } else {
      ClosedForGood(s, steps[..|steps| - 1]);
      StepKeepsShape(Run(s, steps[..|steps| - 1]), steps[|steps| - 1]);
      ShutStays(Run(s, steps[..|steps| - 1]), steps[|steps| - 1]);
    }
  }

  /** A Close that reports an error, or a reopen that fails, is such an end. */
  lemma FailureShuts(s: State, step: Step)
    requires Shaped(s) && (step == Close(false) || step == OpenLog(false)) && Enabled(s, step)
    ensures IsShut(Next(s, step))
  {
    if step.Close? {
      ClosingKeepsShape(s, step);
    }
  }

  function RotatorSteps(steps: seq<Step>): nat {
    if steps == [] then 0
    else RotatorSteps(steps[..|steps| - 1]) + (if IsRotatorStep(steps[|steps| - 1]) then 1 else 0)
  }

  /** With the channel full and the context alive, at most seven moves of the rotation
      goroutine pass before it receives: then a waiting writer can send. Whatever else is
      interleaved does not delay it. */
  lemma {:induction false} ChannelDrains(s: State, steps: seq<Step>)
    requires IsRun(s, steps) && s.token && !s.rotator.Off?
    requires forall i :: 0 <= i < |steps| ==> !steps[i].Receive? && !steps[i].Cancel?
    ensures var s' := Run(s, steps);
            s'.token && !s'.rotator.Off? && RotatorSteps(steps) + Distance(s'.rotator) <= Distance(s.rotator) <= 7
  {
    if steps == [] {
    } else {
      ChannelDrains(s, steps[..|steps| - 1]);
      DrainStep(Run(s, steps[..|steps| - 1]), steps[|steps| - 1]);
    }
  }

  lemma DrainStep(s: State, step: Step)
    requires Enabled(s, step) && s.token && !s.rotator.Off? && !step.Receive? && !step.Cancel?
    ensures var s' := Next(s, step);
            && s'.token && !s'.rotator.Off?
            && (if IsRotatorStep(step) then Distance(s'.rotator) < Distance(s.rotator) else s'.rotator == s.rotator)
  {
  }

  // ---- Rotations answer requests

  function Sends(steps: seq<Step>): nat {
    if steps == [] then 0 else Sends(steps[..|steps| - 1]) + (if steps[|steps| - 1].Send? then 1 else 0)
  }

  function Receives(steps: seq<Step>): nat {
    if steps == [] then 0 else Receives(steps[..|steps| - 1]) + (if steps[|steps| - 1].Receive? then 1 else 0)
  }

  /** Every rotation takes one token and every request leaves one: over any run the tokens sent are
      those received and the one still waiting. */
  lemma {:induction false} TokensBalance(s: State, steps: seq<Step>)
    requires IsRun(s, steps)
    ensures Sends(steps) + (if s.token then 1 else 0) == Receives(steps) + (if Run(s, steps).token then 1 else 0)
  {
    if steps == [] {
    } else {
      TokensBalance(s, steps[..|steps| - 1]);
      TokenStep(Run(s, steps[..|steps| - 1]), steps[|steps| - 1]);
    }
  }

  lemma TokenStep(s: State, step: Step)
    requires Enabled(s, step)
    ensures Next(s, step).token == (if step.Send? then true else if step.Receive? then false else s.token)
    ensures (step.Send? ==> !s.token) && (step.Receive? ==> s.token)
  {
  }
}
