/**
 * The seven commands of todo/main.py over an explicit workspace: the
 * configuration files of the working directory and the lines of the pending
 * and done files that configuration names.
 */
module Commands {
  import opened Outcome
  import opened Text
  import opened Records
  import opened Config
  import opened LineOps
  import opened Display

  class Workspace {
    /** The configuration files in the current working directory. */
    var cwd: ConfigDir
    /** The pending file, as `readlines` returns it. */
    var pending: seq<string>
    /** The done file, as `readlines` returns it. */
    var done: seq<string>

    /** Both files hold whole lines, so rewriting and re-reading them changes nothing. */
    ghost predicate Valid()
      reads this
    {
      AllLines(pending) && AllLines(done)
    }

    constructor (cwd: ConfigDir, pending: seq<string>, done: seq<string>)
      requires AllLines(pending) && AllLines(done)
      ensures Valid()
      ensures this.cwd == cwd && this.pending == pending && this.done == done
    {
      this.cwd, this.pending, this.done := cwd, pending, done;
    }

    /**
     * `init`: refuses an existing directory, then a file name without `.txt`;
     * otherwise both files start empty and the configuration is saved under
     * the name `load_config` reads (the program misspells it; see
     * `Config.SaveAsWrittenInvisible`).
     */
    method Init(root: string, dirName: string, todoFile: string, doneFile: string, dirExists: bool)
      returns (r: Result<ConfigData>)
      requires Valid()
      modifies this
      ensures Valid()
      ensures InitCheck(dirExists, todoFile, doneFile).Some? ==>
        r == Err(InitCheck(dirExists, todoFile, doneFile).value) &&
        cwd == old(cwd) && pending == old(pending) && done == old(done)
      ensures InitCheck(dirExists, todoFile, doneFile).None? ==>
        r == Ok(ConfigFor(root, dirName, todoFile, doneFile)) &&
        cwd == SaveTodoConfig(old(cwd), root, dirName, todoFile, doneFile) &&
        pending == [] && done == []
    {
      if dirExists {
        return Err(DirectoryExists);
      }
      if !EndsWith(todoFile, ".txt") || !EndsWith(doneFile, ".txt") {
        return Err(NotTxtFile);
      }
      pending, done := [], [];
      cwd := SaveTodoConfig(cwd, root, dirName, todoFile, doneFile);
      r := Ok(ConfigFor(root, dirName, todoFile, doneFile));
    }

    /** `add`: appends the new record's line to the pending file. */
    method Add(name: string, priority: Option<string>, estMin: Option<string>, today: string)
      returns (r: Result<string>)
      requires Valid()
      modifies this`pending
      ensures Valid()
      ensures ConfigLoaded(cwd).Err? ==>
        r == Err(ConfigLoaded(cwd).error) && pending == old(pending)
      ensures ConfigLoaded(cwd).Ok? && NewTaskLine(name, priority, estMin, today).Err? ==>
        r == Err(NewTaskLine(name, priority, estMin, today).error) && pending == old(pending)
      ensures ConfigLoaded(cwd).Ok? && NewTaskLine(name, priority, estMin, today).Ok? ==>
        r == Ok(name) &&
        Concat(pending) == Concat(old(pending)) + NewTaskLine(name, priority, estMin, today).value &&
        pending == old(pending) + ReadLines(NewTaskLine(name, priority, estMin, today).value)
    {
      var config := LoadConfig(cwd);
      if config.Err? {
        return Err(config.error);
      }
      var task := Task.New(name, priority, estMin, today);
      if task.Err? {
        return Err(task.error);
      }
      var line := task.value.Line();
      ghost var before := pending;
      AppendedLines(before, line);
      pending := pending + ReadLines(line);
      ReadLinesTerminated(line);
      ConcatAppend(before, ReadLines(line));
      ConcatReadLines(line);
      r := Ok(name);
    }

    /** `list`: every pending row, today's first. */
    method ListTasks(today: string) returns (r: Result<Listing>)
      requires WellFormed(pending)
      ensures ConfigLoaded(cwd).Err? ==> r == Err(ConfigLoaded(cwd).error)
      ensures ConfigLoaded(cwd).Ok? ==> r == Ok(List(pending, today))
    {
      var config := LoadConfig(cwd);
      if config.Err? {
        return Err(config.error);
      }
      r := Ok(List(pending, today));
    }

    /** `today`: the pending rows dated today. */
    method TodayTasks(today: string) returns (r: Result<Listing>)
      requires WellFormed(pending)
      ensures ConfigLoaded(cwd).Err? ==> r == Err(ConfigLoaded(cwd).error)
      ensures ConfigLoaded(cwd).Ok? ==> r == Ok(Today(pending, today))
    {
      var config := LoadConfig(cwd);
      if config.Err? {
        return Err(config.error);
      }
      r := Ok(Today(pending, today));
    }

    /**
     * `delete`: after the bounds check, removes the first line equal to line
     * `taskId` and reports the text before its first comma.
     */
    method Delete(taskId: int) returns (r: Result<string>)
      requires Valid()
      modifies this`pending
      ensures Valid()
      ensures ConfigLoaded(cwd).Err? ==> r == Err(ConfigLoaded(cwd).error) && pending == old(pending)
      ensures ConfigLoaded(cwd).Ok? && !(1 <= taskId <= |old(pending)|) ==>
        r == Err(TaskIdNotFound) && pending == old(pending)
      ensures ConfigLoaded(cwd).Ok? && 1 <= taskId <= |old(pending)| ==>
        r == Ok(FirstField(old(pending)[taskId - 1])) &&
        pending == RemoveFirst(old(pending), old(pending)[taskId - 1])
    {
      var config := LoadConfig(cwd);
      if config.Err? {
        return Err(config.error);
      }
      if taskId < 1 || taskId > |pending| {
        return Err(TaskIdNotFound);
      }
      var item := pending[taskId - 1];
      ghost var before := pending;
      pending := RemoveFirst(pending, item);
      RemovedLinesStayLines(before, item);
      r := Ok(FirstField(item));
    }

    /**
     * `do`: like `delete`, and the removed line is appended to the done file,
     * so no line is lost or gained between the two files.
     */
    method Do(taskId: int) returns (r: Result<string>)
      requires Valid()
      modifies this`pending, this`done
      ensures Valid()
      ensures ConfigLoaded(cwd).Err? ==>
        r == Err(ConfigLoaded(cwd).error) && pending == old(pending) && done == old(done)
      ensures ConfigLoaded(cwd).Ok? && !(1 <= taskId <= |old(pending)|) ==>
        r == Err(TaskIdNotFound) && pending == old(pending) && done == old(done)
      ensures ConfigLoaded(cwd).Ok? && 1 <= taskId <= |old(pending)| ==>
        r == Ok(FirstField(old(pending)[taskId - 1])) &&
        pending == RemoveFirst(old(pending), old(pending)[taskId - 1]) &&
        done == old(done) + [old(pending)[taskId - 1]]
      ensures |pending| + |done| == |old(pending)| + |old(done)|
    {
      var config := LoadConfig(cwd);
      if config.Err? {
        return Err(config.error);
      }
      if taskId < 1 || taskId > |pending| {
        return Err(TaskIdNotFound);
      }
      var item := pending[taskId - 1];
      ghost var before := pending;
      pending := RemoveFirst(pending, item);
      RemovedLinesStayLines(before, item);
      done := done + [item];
      r := Ok(FirstField(item));
    }

    /**
     * `edit`: after the bounds check, validates the new record and writes its
     * line, dated today, over line `taskId`.
     */
    method Edit(taskId: int, name: string, priority: Option<string>, estMin: Option<string>, today: string)
      returns (r: Result<string>)
      requires Valid()
      modifies this`pending
      ensures Valid()
      ensures ConfigLoaded(cwd).Err? ==> r == Err(ConfigLoaded(cwd).error) && pending == old(pending)
      ensures ConfigLoaded(cwd).Ok? && !(1 <= taskId <= |old(pending)|) ==>
        r == Err(TaskIdNotFound) && pending == old(pending)
      ensures ConfigLoaded(cwd).Ok? && 1 <= taskId <= |old(pending)| &&
              NewTaskLine(name, priority, estMin, today).Err? ==>
        r == Err(NewTaskLine(name, priority, estMin, today).error) && pending == old(pending)
      ensures ConfigLoaded(cwd).Ok? && 1 <= taskId <= |old(pending)| &&
              NewTaskLine(name, priority, estMin, today).Ok? ==>
        r == Ok(name) &&
        pending == old(pending)[..taskId - 1] +
                   ReadLines(NewTaskLine(name, priority, estMin, today).value) +
                   old(pending)[taskId..]
    {
      var config := LoadConfig(cwd);
      if config.Err? {
        return Err(config.error);
      }
      if taskId < 1 || taskId > |pending| {
        return Err(TaskIdNotFound);
      }
      var task := Task.New(name, priority, estMin, today);
      if task.Err? {
        return Err(task.error);
      }
      var line := task.value.Line();
      ReadLinesTerminated(line);
      pending := pending[..taskId - 1] + ReadLines(line) + pending[taskId..];
      r := Ok(name);
    }
  }

  // ------------------------------------------------------- file round trips

  /** Appending `line` to a file of whole lines, then reading it, gives these lines. */
  lemma AppendedLines(ls: seq<string>, line: string)
    requires AllLines(ls) && |line| > 0 && line[|line| - 1] == '\n'
    ensures ReadLines(Concat(ls) + line) == ls + ReadLines(line)
  {
    ReadLinesSpliced(ls, line, []);
    assert Concat(ls) + line + Concat([]) == Concat(ls) + line;
  }

  lemma RemovedLinesStayLines(ls: seq<string>, x: string)
    requires AllLines(ls) && x in ls
    ensures AllLines(RemoveFirst(ls, x))
  {
    RemoveFirstSplice(ls, x);
  }

  /**
   * When the new line is one line, `edit` keeps the number of lines, puts
   * that line at position `k` and leaves every other position alone.
   */
  lemma EditReplacesOneLine(ls: seq<string>, k: nat, line: string)
    requires k < |ls| && IsLine(line)
    ensures ls[..k] + ReadLines(line) + ls[k + 1..] == ls[k := line]
    ensures |ls[k := line]| == |ls|
    ensures forall j :: 0 <= j < |ls| && j != k ==> ls[k := line][j] == ls[j]
  {
    ReadOneLine(line);
  }

  /**
   * The line `add` writes for a plain name (no comma, no newline, no leading
   * space) is one whole line, and reading it back gives the name, the stored
   * priority and estimate, and today's date.
   */
  lemma NewTaskLineFields(name: string, priority: Option<string>, estMin: Option<string>, today: string)
    requires NewTaskLine(name, priority, estMin, today).Ok?
    requires '\n' !in name && ',' !in name && (|name| == 0 || !IsSpace(name[0])) && IsDate(today)
    ensures ReadLines(NewTaskLine(name, priority, estMin, today).value) ==
            [NewTaskLine(name, priority, estMin, today).value]
    ensures Fields(NewTaskLine(name, priority, estMin, today).value) ==
            [name, Field(ValidatePriority(priority).value), Field(ValidateEstimate(estMin).value), today]
  {
    var p, e := ValidatePriority(priority).value, ValidateEstimate(estMin).value;
    assert NewTaskLine(name, priority, estMin, today).value == TaskLine(name, p, e, today);
    TaskLineIsLine(name, p, e, today);
    TaskLineRoundTrip(name, p, e, today);
  }

  /**
   * A task added under a plain name is one new line; `list` and `today` then
   * show it with the next ID, its name, stored priority and estimate, and
   * today's date.
   */
  lemma AddedTaskIsShown(pending: seq<string>, name: string, priority: Option<string>,
                          estMin: Option<string>, today: string, line: string)
    requires WellFormed(pending)
    requires NewTaskLine(name, priority, estMin, today) == Ok(line)
    requires '\n' !in name && ',' !in name && (|name| == 0 || !IsSpace(name[0])) && IsDate(today)
    ensures pending + ReadLines(line) == pending + [line]
    ensures WellFormed(pending + [line])
    ensures List(pending + [line], today).Table?
    ensures [NatToString(|pending| + 1), name, Field(ValidatePriority(priority).value),
             Field(ValidateEstimate(estMin).value), today] in List(pending + [line], today).rows
    ensures Today(pending + [line], today).Table?
    ensures [NatToString(|pending| + 1), name, Field(ValidatePriority(priority).value),
             Field(ValidateEstimate(estMin).value), today] in Today(pending + [line], today).rows
  {
    NewTaskLineFields(name, priority, estMin, today);
    AppendedLineShown(pending, line, today);
    ConsFour(NatToString(|pending| + 1), Fields(line), name, Field(ValidatePriority(priority).value),
             Field(ValidateEstimate(estMin).value), today);
  }

  /** A well-formed line dated today, appended, is listed by both commands under the next ID. */
  lemma AppendedLineShown(lines: seq<string>, line: string, today: string)
    requires WellFormed(lines) && |Fields(line)| >= 4 && Fields(line)[3] == today
    ensures WellFormed(lines + [line])
    ensures List(lines + [line], today).Table?
    ensures IdRow(|lines|, line) in List(lines + [line], today).rows
    ensures Today(lines + [line], today).Table?
    ensures IdRow(|lines|, line) in Today(lines + [line], today).rows
  {
    var after := lines + [line];
    AppendedWellFormed(lines, line);
    assert after[|after| - 1] == line;
    LastLineListed(after, today);
    LastLineDueToday(after, today);
  }

  lemma ConsFour(x: string, fs: seq<string>, a: string, b: string, c: string, d: string)
    requires fs == [a, b, c, d]
    ensures [x] + fs == [x, a, b, c, d]
  {
  }

  lemma AppendedWellFormed(lines: seq<string>, line: string)
    requires WellFormed(lines) && |Fields(line)| >= 4
    ensures WellFormed(lines + [line])
  {
    var after := lines + [line];
    assert forall i :: 0 <= i < |lines| ==> after[i] == lines[i];
  }

  lemma LastLineListed(lines: seq<string>, today: string)
    requires WellFormed(lines) && |lines| > 0
    ensures List(lines, today).Table?
    ensures IdRow(|lines| - 1, lines[|lines| - 1]) in List(lines, today).rows
  {
    var k := |lines| - 1;
    var row := IdRow(k, lines[k]);
    WithIdsAt(lines, k);
    assert row in WithIds(lines);
    ListShowsEveryLine(lines, today);
    assert row in multiset(WithIds(lines));
    assert row in multiset(List(lines, today).rows);
  }

  lemma LastLineDueToday(lines: seq<string>, today: string)
    requires WellFormed(lines) && |lines| > 0 && Fields(lines[|lines| - 1])[3] == today
    ensures Today(lines, today).Table?
    ensures IdRow(|lines| - 1, lines[|lines| - 1]) in Today(lines, today).rows
  {
    var k := |lines| - 1;
    var row := IdRow(k, lines[k]);
    TodayNothingDue(lines, today);
    assert Today(lines, today).Table?;
    assert TodayRowOf(lines, today, k, row);
    TodayShowsTodaysLines(lines, today, row);
  }
}
