/** Line storage (internal/storage/storage.go): every message becomes one line of the
    day's file, and no file outside the output directory is ever touched. */
module Storage {
  import opened Wrappers
  import opened Text

  // ---- Newline framing

  type Day = day: string | '/' !in day witness ""

  function Line(message: string): string {
    if message != "" && Last(message) == '\n' then message else message + "\n"
  }

  function Lines(messages: seq<string>): string {
    if messages == [] then "" else Line(messages[0]) + Lines(messages[1..])
  }

  predicate Terminated(content: string) {
    content == "" || Last(content) == '\n'
  }

  function LogName(day: Day): string {
    "sbs_" + day + ".log"
  }

  predicate LogAllowed(dir: seq<string>, day: Day) {
    ValidatePath(PathOf(dir + [LogName(day)]), PathOf(dir))
  }

  /** The operating system's answers while one message is written. */
  datatype Environment = Environment(today: Day, resolves: bool, opens: bool, writes: bool)

  /** The open file, nil before the first one, and the content of every day's log. */
  datatype Log = Log(file: Option<Day>, files: map<Day, string>) {
    ghost predicate Valid() {
      && (file.Some? ==> file.value in files)
      && forall d :: d in files ==> Terminated(files[d])
    }

    function Content(day: Day): string {
      if day in files then files[day] else ""
    }
  }

  predicate Opens(dir: seq<string>, env: Environment) {
    env.resolves && LogAllowed(dir, env.today) && env.opens
  }

  /** rotateFile: today's log for appending, empty if there is none yet. */
  function Rotated(log: Log, dir: seq<string>, env: Environment): Log {
    if !Opens(dir, env) then log
    else Log(Some(env.today), if env.today in log.files then log.files else log.files[env.today := ""])
  }

  /** One message, and whether it is reported written. */
  function Written(log: Log, dir: seq<string>, message: string, env: Environment): (Log, bool) {
    var ready := if log.file.None? then Rotated(log, dir, env) else log;
    if ready.file.Some? && env.writes then
      (ready.(files := ready.files[ready.file.value := ready.Content(ready.file.value) + Line(message)]), true)
    else (ready, false)
  }

  datatype Call = Call(message: string, env: Environment)

  /** Any number of messages, and those reported written. */
  function AllWritten(log: Log, dir: seq<string>, calls: seq<Call>): (Log, seq<string>) {
    if calls == [] then (log, [])
    else
      var (before, written) := AllWritten(log, dir, Front(calls));
      var (after, ok) := Written(before, dir, Last(calls).message, Last(calls).env);
      (after, if ok then written + [Last(calls).message] else written)
  }

  class Storage {
    const outputDir: seq<string>   // by components
    var file: Option<Day>
    var files: map<Day, string>

    function View(): Log
      reads this
    {
      Log(file, files)
    }

    constructor (outputDir: seq<string>, files: map<Day, string>)
      ensures View() == Log(None, files) && this.outputDir == outputDir
    {
      this.outputDir, file, this.files := outputDir, None, files;
    }

    method RotateFile(env: Environment) returns (ok: bool)
      modifies this
      ensures View() == Rotated(old(View()), outputDir, env) && ok == Opens(outputDir, env)
    {
      if !env.resolves || !LogAllowed(outputDir, env.today) || !env.opens { return false; }
      if env.today !in files { files := files[env.today := ""]; }
      file := Some(env.today);
      return true;
    }

    method WriteMessage(message: string, env: Environment) returns (ok: bool)
      requires View().Valid()
      modifies this
      ensures (View(), ok) == Written(old(View()), outputDir, message, env)
    {
      if file == None {
        var ready := RotateFile(env);
        if !ready { return false; }
      }
      if !env.writes { return false; }
      if |message| > 0 && message[|message| - 1] == '\n' {
        files := files[file.value := files[file.value] + message];
      } else {
        files := files[file.value := files[file.value] + (message + "\n")];
      }
      return true;
    }

    /** Messages written one after another; those refused are lost. */
    method WriteAll(calls: seq<Call>) returns (written: seq<string>)
      requires View().Valid()
      modifies this
      ensures View().Valid() && (View(), written) == AllWritten(old(View()), outputDir, calls)
    {
      written := [];
      var n := 0;
      while n < |calls|
        invariant 0 <= n <= |calls|
        invariant View().Valid() && (View(), written) == AllWritten(old(View()), outputDir, calls[..n])
      {
        WrittenValid(View(), outputDir, calls[n].message, calls[n].env);
        var ok := WriteMessage(calls[n].message, calls[n].env);
        if ok { written := written + [calls[n].message]; }
        n := n + 1;
        assert Front(calls[..n]) == calls[..n - 1] && Last(calls[..n]) == calls[n - 1];
      }
      assert calls[..n] == calls;
    }
  }

  /** Every file stays empty or newline-terminated. */
  lemma WrittenValid(log: Log, dir: seq<string>, message: string, env: Environment)
    requires log.Valid()
    ensures Written(log, dir, message, env).0.Valid()
  {
    LineEnds(log.Content(env.today), message);
    if log.file.Some? {
      LineEnds(log.Content(log.file.value), message);
    }
  }

  lemma LineEnds(content: string, message: string)
    ensures Terminated(content + Line(message))
  {
  }

  /** `log'` is `log` with the lines of `written` after what its day held before: nothing else
      has changed, and without an open file nothing at all. */
  ghost predicate Grown(log: Log, log': Log, written: seq<string>) {
    && log'.Valid() && (log.file.Some? ==> log'.file == log.file)
    && match log'.file
       case None => log' == log && written == []
       case Some(day) =>
         && log'.Content(day) == log.Content(day) + Lines(written)
         && log'.files.Keys == log.files.Keys + {day}
         && forall d :: d in log.files && d != day ==> log'.files[d] == log.files[d]
  }

  /** Over every sequence of messages, whether the file was open, had to be opened or had to be
      created, and wherever opening or writing fails: the day's log is what it held before
      followed by the lines of exactly the messages reported written, and no other log changes. */
  lemma {:induction false} MessagesAccumulate(log: Log, dir: seq<string>, calls: seq<Call>)
    requires log.Valid()
    ensures Grown(log, AllWritten(log, dir, calls).0, AllWritten(log, dir, calls).1)
  {
    if calls == [] {
      NothingGrown(log);
    } else {
      var (before, written) := AllWritten(log, dir, Front(calls));
      MessagesAccumulate(log, dir, Front(calls));
      GrowsOn(log, before, written, dir, Last(calls).message, Last(calls).env);
    }
  }

  lemma NothingGrown(log: Log)
    requires log.Valid()
    ensures Grown(log, log, [])
  {
    if log.file.Some? {
      assert log.Content(log.file.value) + "" == log.Content(log.file.value);
    }
  }

  lemma GrowsOn(log: Log, before: Log, written: seq<string>, dir: seq<string>, message: string, env: Environment)
    requires Grown(log, before, written)
    ensures var (after, ok) := Written(before, dir, message, env);
            Grown(log, after, if ok then written + [message] else written)
  {
    WrittenValid(before, dir, message, env);
    LineEnds(before.Content(env.today), message);
    if before.file.Some? {
      LineEnds(before.Content(before.file.value), message);
    }
    var ready := if before.file.None? then Rotated(before, dir, env) else before;
    ReadyGrown(log, before, written, dir, env);
    if ready.file.Some? && env.writes {
      LineGrown(log, ready, written, ready.file.value, message);
    }
  }

  /** Opening a log changes no content. */
  lemma ReadyGrown(log: Log, before: Log, written: seq<string>, dir: seq<string>, env: Environment)
    requires Grown(log, before, written)
    ensures Grown(log, if before.file.None? then Rotated(before, dir, env) else before, written)
  {
    if before.file.None? {
      assert log.Content(env.today) + "" == log.Content(env.today);
    }
  }

  lemma LineGrown(log: Log, ready: Log, written: seq<string>, day: Day, message: string)
    requires Grown(log, ready, written) && ready.file == Some(day)
    requires Terminated(ready.Content(day) + Line(message))
    ensures Grown(log, ready.(files := ready.files[day := ready.Content(day) + Line(message)]), written + [message])
  {
    LinesSnoc(written, message);
    AssociateText(log.Content(day), Lines(written), Line(message));
    hide Line, Lines;
  }

  lemma AssociateText(a: string, b: string, c: string)
    ensures (a + b) + c == a + (b + c)
  {
  }

  lemma LinesCons(message: string, messages: seq<string>)
    ensures Lines([message] + messages) == Line(message) + Lines(messages)
  {
    assert ([message] + messages)[1..] == messages;
  }

  lemma {:induction false} LinesSnoc(messages: seq<string>, message: string)
    ensures Lines(messages + [message]) == Lines(messages) + Line(message)
  {
    if messages == [] {
      assert messages + [message] == [message];
      assert Line(message) + "" == "" + Line(message);
    } else {
      LinesSnoc(messages[1..], message);
      assert messages + [message] == [messages[0]] + (messages[1..] + [message]);
      LinesCons(messages[0], messages[1..] + [message]);
      AssociateText(Line(messages[0]), Lines(messages[1..]), Line(message));
    }
  }

  /** A message that is one line: no newline except an optional final one. */
  ghost predicate OneLine(message: string) {
    '\n' !in Body(message)
  }

  /** The message without its final newline. */
  function Body(message: string): string {
    if message != "" && Last(message) == '\n' then Front(message) else message
  }

  function Bodies(messages: seq<string>): seq<string> {
    if messages == [] then [] else [Body(messages[0])] + Bodies(messages[1..])
  }

  /** Reading the log back line by line gives exactly the messages, in order, without their
      final newlines, and nothing after the last newline. */
  lemma {:induction false} LogReadsBack(messages: seq<string>)
    requires forall m :: m in messages ==> OneLine(m)
    ensures Split(Lines(messages), "\n") == Bodies(messages) + [""]
    ensures Terminated(Lines(messages))
  {
    if messages == [] {
    } else {
      var m, rest := messages[0], messages[1..];
      assert m in messages && OneLine(m);
      LogReadsBack(rest);
      LineReadsBack(m, Lines(rest), Bodies(rest) + [""]);
      LinesTerminated(m, Lines(rest));
      hide Split, Line, Body;
      assert [Body(m)] + (Bodies(rest) + [""]) == [Body(m)] + Bodies(rest) + [""];
    }
  }

  lemma LineReadsBack(message: string, more: string, pieces: seq<string>)
    requires OneLine(message) && Split(more, "\n") == pieces
    ensures Split(Line(message) + more, "\n") == [Body(message)] + pieces
  {
    CuttableByChar(Body(message), '\n');
    SplitFirst(Body(message), more, "\n");
    assert Line(message) == Body(message) + "\n";
  }

  lemma LinesTerminated(message: string, more: string)
    requires Terminated(more)
    ensures Terminated(Line(message) + more)
  {
  }

  /** What was there before ends its last line, so reading starts afresh after it. */
  lemma TerminatedSplits(content: string, more: string)
    requires Terminated(content)
    ensures Last(Split(content, "\n")) == ""
    ensures Split(content + more, "\n") == Front(Split(content, "\n")) + Split(more, "\n")
  {
    if content != "" {
      var line := Last(Split(Front(content), "\n"));
      assert content == Front(content) + "\n";
      SplitResumes(Front(content), "\n", "\n");
      SplitPiecesFree(Front(content), "\n");
      OneLineSplits(line);
    }
    SplitResumes(content, more, "\n");
    assert "" + more == more;
  }

  lemma OneLineSplits(line: string)
    requires !Contains(line, "\n")
    ensures Split(line + "\n", "\n") == [line, ""]
  {
    assert line + "\n"[..0] == line;
    SplitFirst(line, "", "\n");
    assert line + "\n" + "" == line + "\n";
  }

  /** The whole property: any messages without a newline except an optional final one, written
      through any failures after any earlier content, read back line by line as the earlier lines
      and then exactly the messages reported written, without their final newlines. */
  lemma WrittenReadsBack(log: Log, dir: seq<string>, calls: seq<Call>)
    requires log.Valid() && forall c :: c in calls ==> OneLine(c.message)
    ensures var (log', written) := AllWritten(log, dir, calls);
            if log'.file.None? then log' == log && written == []
            else
              var day := log'.file.value;
              && Split(log'.Content(day), "\n") == Front(Split(log.Content(day), "\n")) + Bodies(written) + [""]
              && Terminated(log'.Content(day))
  {
    MessagesAccumulate(log, dir, calls);
    WrittenAreCalls(log, dir, calls);
    var (log', written) := AllWritten(log, dir, calls);
    if log'.file.Some? {
      var former := log.Content(log'.file.value);
      LogReadsBack(written);
      TerminatedSplits(former, Lines(written));
      assert Front(Split(former, "\n")) + (Bodies(written) + [""]) == Front(Split(former, "\n")) + Bodies(written) + [""];
    }
  }

  lemma {:induction false} WrittenAreCalls(log: Log, dir: seq<string>, calls: seq<Call>)
    requires forall c :: c in calls ==> OneLine(c.message)
    ensures forall m :: m in AllWritten(log, dir, calls).1 ==> OneLine(m)
  {
    if calls == [] {
    } else {
      assert forall c :: c in Front(calls) ==> c in calls;
      WrittenAreCalls(log, dir, Front(calls));
      assert Last(calls) in calls;
    }
  }

  // ---- Path containment

  const SEPARATOR := "/"

  /** A file or directory name. */
  ghost predicate Name(s: string) {
    s != "" && '/' !in s
  }

  /** The cleaned absolute path with the given components: no empty component, no trailing
      separator, and "/" for none. */
  function PathOf(components: seq<string>): string {
    if components == [] then "/" else "/" + Join(components, "/")
  }

  ghost predicate Names(components: seq<string>) {
    forall i :: 0 <= i < |components| ==> Name(components[i])
  }

  function HasPrefix(s: string, prefix: string): bool {
    prefix <= s
  }

  /** The check itself, on paths already made absolute and clean. */
  function ValidatePath(absPath: string, absOutputDir: string): bool {
    HasPrefix(absPath, absOutputDir + SEPARATOR) || absPath == absOutputDir
  }

  lemma ComponentsOf(components: seq<string>)
    requires Names(components) && components != []
    ensures Split(PathOf(components), "/") == [""] + components
  {
    forall i | 0 <= i < |components| ensures Cuttable(components[i], "/") {
      CuttableByChar(components[i], '/');
    }
    SplitJoin(components, "/");
    CuttableByChar("", '/');
    SplitFirst("", Join(components, "/"), "/");
    assert "" + "/" + Join(components, "/") == PathOf(components);
  }

  lemma {:induction false} JoinConcat(a: seq<string>, b: seq<string>)
    requires a != [] && b != []
    ensures Join(a + b, "/") == Join(a, "/") + "/" + Join(b, "/")
  {
    if |a| == 1 {
      assert (a + b)[1..] == b;
    } else {
      JoinConcat(a[1..], b);
      assert (a + b)[1..] == a[1..] + b;
    }
  }

  /** For every output directory but the root, the string test is exactly component-wise
      containment: a path is accepted if and only if its components extend the
      directory's. */
  lemma ValidatePathExact(path: seq<string>, dir: seq<string>)
    requires Names(path) && Names(dir) && dir != []
    ensures ValidatePath(PathOf(path), PathOf(dir)) <==> dir <= path
  {
    var p, d := PathOf(path), PathOf(dir);
    if dir <= path {
      if |path| == |dir| {
        assert path == dir;
      } else {
        JoinConcat(dir, path[|dir|..]);
        assert path == dir + path[|dir|..];
        assert p == d + "/" + Join(path[|dir|..], "/");
      }
    } else if ValidatePath(p, d) {
      AcceptedExtends(path, dir);
      assert false;
    }
  }

  lemma AcceptedExtends(path: seq<string>, dir: seq<string>)
    requires Names(path) && Names(dir) && dir != []
    requires ValidatePath(PathOf(path), PathOf(dir))
    ensures dir <= path
  {
    var p, d := PathOf(path), PathOf(dir);
    assert |d| >= 2 by { JoinEnds(dir, "/"); }
    ComponentsOf(dir);
    ComponentsOf(path);
    if p == d {
      assert ([""] + path)[1..] == path && ([""] + dir)[1..] == dir;
    } else {
      var rest := p[|d| + 1..];
      assert p == d + "/" + rest;
      JoinCons("", dir, "/");
      assert "" + "/" + Join(dir, "/") == d;
      SplitJoined([""] + dir, rest);
      PrefixBehindHead(path, dir, Split(rest, "/"));
    }
  }

  lemma PrefixBehindHead(path: seq<string>, dir: seq<string>, rest: seq<string>)
    requires [""] + path == ([""] + dir) + rest
    ensures dir <= path
  {
    assert path == ([""] + path)[1..] == dir + rest;
  }

  lemma {:induction false} SplitJoined(pieces: seq<string>, rest: string)
    requires pieces != [] && forall i :: 0 <= i < |pieces| ==> '/' !in pieces[i]
    ensures Split(Join(pieces, "/") + "/" + rest, "/") == pieces + Split(rest, "/")
  {
    CuttableByChar(pieces[0], '/');
    hide Split, Cuttable;
    if |pieces| == 1 {
      SplitFirst(pieces[0], rest, "/");
    } else {
      SplitJoined(pieces[1..], rest);
      SplitJoinedCons(pieces[0], pieces[1..], rest);
      assert pieces == [pieces[0]] + pieces[1..];
    }
  }

  lemma SplitJoinedCons(first: string, others: seq<string>, rest: string)
    requires others != [] && Cuttable(first, "/")
    requires Split(Join(others, "/") + "/" + rest, "/") == others + Split(rest, "/")
    ensures Split(Join([first] + others, "/") + "/" + rest, "/") == [first] + others + Split(rest, "/")
  {
    JoinCons(first, others, "/");
    SplitJoinedStep(first, Join(others, "/"), rest);
    hide Join, Split;
    assert [first] + (others + Split(rest, "/")) == [first] + others + Split(rest, "/");
  }

  lemma SplitJoinedStep(first: string, middle: string, rest: string)
    requires Cuttable(first, "/")
    ensures Split(first + "/" + middle + "/" + rest, "/") == [first] + Split(middle + "/" + rest, "/")
  {
    SplitFirst(first, middle + "/" + rest, "/");
    assert first + "/" + (middle + "/" + rest) == first + "/" + middle + "/" + rest;
  }

  /** With the root as output directory the test accepts the root alone, so every log file
      is refused: "//" is a prefix of no clean path. */
  lemma RootAcceptsOnlyRoot(path: seq<string>)
    requires Names(path)
    ensures ValidatePath(PathOf(path), PathOf([])) <==> path == []
  {
    if path != [] {
      JoinEnds(path, "/");
      assert path[0] <= Join(path, "/");
      assert PathOf(path)[1] == path[0][0] != '/';
      assert (PathOf([]) + SEPARATOR)[1] == '/';
    }
  }

  /** Directories that merely share a string prefix stay outside, and the archive name of
      any accepted file below the directory is accepted as well. */
  lemma SiblingsOutArchivesIn(dir: seq<string>, parent: seq<string>, name: string, suffix: string, below: seq<string>)
    requires Names(parent) && Name(name) && Names(below) && suffix != "" && '/' !in suffix
    requires dir == parent + [name]
    ensures !ValidatePath(PathOf(parent + [name + suffix] + below), PathOf(dir))
    ensures below != [] ==>
              ValidatePath(PathOf(dir + Front(below) + [Last(below) + suffix]), PathOf(dir))
              && PathOf(dir + Front(below) + [Last(below) + suffix]) == PathOf(dir + below) + suffix
  {
    SiblingOut(parent, name, suffix, below);
    if below != [] {
      NamesFront(below);
      ArchiveIn(dir, Front(below), Last(below), suffix);
      ArchiveName(dir + Front(below), Last(below), suffix);
      FrontLast(dir, below);
    }
  }

  lemma NamesFront(components: seq<string>)
    requires Names(components) && components != []
    ensures Names(Front(components)) && Name(Last(components))
  {
  }

  lemma FrontLast(a: seq<string>, b: seq<string>)
    requires b != []
    ensures a + Front(b) + [Last(b)] == a + b
  {
  }

  lemma SiblingOut(parent: seq<string>, name: string, suffix: string, below: seq<string>)
    requires Names(parent) && Name(name) && Names(below) && suffix != "" && '/' !in suffix
    ensures !ValidatePath(PathOf(parent + [name + suffix] + below), PathOf(parent + [name]))
  {
    var sibling, dir := parent + [name + suffix] + below, parent + [name];
    ValidatePathExact(sibling, dir);
    assert sibling[|parent|] == name + suffix && dir[|parent|] == name;
  }

  lemma ArchiveIn(dir: seq<string>, middle: seq<string>, file: string, suffix: string)
    requires Names(dir) && dir != [] && Names(middle) && Name(file) && '/' !in suffix
    ensures ValidatePath(PathOf(dir + middle + [file + suffix]), PathOf(dir))
  {
    assert dir <= dir + middle + [file + suffix];
    ValidatePathExact(dir + middle + [file + suffix], dir);
  }

  lemma ArchiveName(above: seq<string>, file: string, suffix: string)
    requires above != []
    ensures PathOf(above + [file + suffix]) == PathOf(above + [file]) + suffix
  {
    PathSnoc(above, file);
    PathSnoc(above, file + suffix);
    hide PathOf;
    AssociateText(PathOf(above) + "/", file, suffix);
  }

  lemma PathSnoc(above: seq<string>, name: string)
    requires above != []
    ensures PathOf(above + [name]) == PathOf(above) + "/" + name
  {
    JoinConcat(above, [name]);
    hide Join;
    JoinOne(name);
    PathGrouping(Join(above, "/"), name);
  }

  lemma JoinOne(name: string)
    ensures Join([name], "/") == name
  {
  }

  lemma PathGrouping(above: string, name: string)
    ensures "/" + (above + "/" + name) == ("/" + above) + "/" + name
  {
  }

  /** The check on a day's own log passes for every output directory but the root. */
  lemma LogAllowedExactly(dir: seq<string>, day: Day)
    requires Names(dir)
    ensures LogAllowed(dir, day) <==> dir != []
  {
    var log := dir + [LogName(day)];
    assert log[|dir|] == LogName(day);
    if dir == [] {
      RootAcceptsOnlyRoot(log);
    } else {
      ValidatePathExact(log, dir);
    }
  }

  /** So a storage on the root directory never writes anything, and any other one writes exactly
      when the operating system lets it. */
  lemma FirstWriteExactly(log: Log, dir: seq<string>, message: string, env: Environment)
    requires Names(dir) && log.file.None?
    ensures Written(log, dir, message, env).1 <==> dir != [] && env.resolves && env.opens && env.writes
  {
    LogAllowedExactly(dir, env.today);
  }

  // ---- Which file

  /** A day's log is the file of that day's name below the output directory, and no two days
      share one. */
  lemma LogPathExactly(dir: seq<string>, day: Day, other: Day)
    requires dir != []
    ensures PathOf(dir + [LogName(day)]) == PathOf(dir) + "/sbs_" + day + ".log"
    ensures LogName(day) == LogName(other) ==> day == other
  {
    PathSnoc(dir, LogName(day));
    LogNameGrouping(PathOf(dir), day);
    assert LogName(day)[4..|LogName(day)| - 4] == day;
    assert LogName(other)[4..|LogName(other)| - 4] == other;
  }

  lemma LogNameGrouping(above: string, day: string)
    ensures above + "/" + ("sbs_" + day + ".log") == above + "/sbs_" + day + ".log"
  {
  }

  /** Without an open file it is today's that is opened, or none, and a message reported written
      ends that one's content. */
  lemma OpensToday(log: Log, dir: seq<string>, message: string, env: Environment)
    requires log.Valid() && log.file.None?
    ensures var (log', ok) := Written(log, dir, message, env);
            && (log'.file == Some(env.today) <==> Opens(dir, env))
            && (log'.file == None <==> !Opens(dir, env))
            && (ok <==> Opens(dir, env) && env.writes)
            && (ok ==> log'.Content(env.today) == log.Content(env.today) + Line(message))
  {
  }

  /** With an open file the write alone decides, and it is that file that grows, whatever day it
      has become. */
  lemma KeepsOpenFile(log: Log, dir: seq<string>, message: string, env: Environment)
    requires log.Valid() && log.file.Some?
    ensures var (log', ok) := Written(log, dir, message, env);
            && log'.file == log.file && (ok <==> env.writes)
            && log'.Content(log.file.value) == log.Content(log.file.value) + (if ok then Line(message) else "")
  {
    if !env.writes {
      assert log.Content(log.file.value) + "" == log.Content(log.file.value);
    }
  }

  /** The call that opened the file: the first whose opening succeeded. */
  ghost predicate FirstOpening(dir: seq<string>, calls: seq<Call>, n: int) {
    0 <= n < |calls| && Opens(dir, calls[n].env) && forall k :: 0 <= k < n ==> !Opens(dir, calls[k].env)
  }

  /** Over any messages, from no open file: the open day is the today of the first call whose
      opening succeeded, and stays; and there is none exactly if every opening failed. */
  lemma {:induction false} OpenDayExactly(log: Log, dir: seq<string>, calls: seq<Call>)
    requires log.Valid() && log.file.None?
    ensures var log' := AllWritten(log, dir, calls).0;
            && (log'.file.None? <==> forall k :: 0 <= k < |calls| ==> !Opens(dir, calls[k].env))
            && forall n :: FirstOpening(dir, calls, n) ==> log'.file == Some(calls[n].env.today)
  {
    hide Written, Opens, Grown;
    if calls == [] {
    } else {
      var front := Front(calls);
      OpenDayExactly(log, dir, front);
      MessagesAccumulate(log, dir, front);
      OpenDayStep(AllWritten(log, dir, front).0, dir, Last(calls));
      assert forall k :: 0 <= k < |front| ==> front[k] == calls[k];
      assert Last(calls) == calls[|front|];
      forall n | FirstOpening(dir, calls, n) ensures AllWritten(log, dir, calls).0.file == Some(calls[n].env.today) {
        if n < |front| {
          assert FirstOpening(dir, front, n);
        }
      }
    }
  }

  lemma OpenDayStep(before: Log, dir: seq<string>, call: Call)
    ensures Written(before, dir, call.message, call.env).0.file
         == if before.file.Some? then before.file else if Opens(dir, call.env) then Some(call.env.today) else None
  {
    hide Opens;
  }
}
