/** The globals of shell.c (`shell_state`, `shell_commands`, `shell_jobs`,
    `shell_env`) as one object whose methods update them in place, each
    method proved to produce the state that the corresponding `ShellSpec`
    function describes. */
module Shell {
  import opened Interpreter
  import opened CString
  import opened Slots
  import opened Lexer
  import opened Expander
  import opened TestCmd
  import opened ShellSpec
  import opened ShellProps

  class Shell {
    var cwd: string
    var lastExit: int
    var pid: int
    var interactive: bool
    var running: bool
    /** The registered slots `shell_commands[0 .. shell_command_count)`. */
    var commands: seq<Command>
    const history: array<Entry>
    var historyCount: int
    var historyIndex: int
    const aliases: array<Slot<string>>
    var aliasCount: int
    const env: array<Slot<string>>
    const jobs: array<Job>
    var jobCount: int

    /** The state as a value. */
    function Abs(): State
      reads this, history, aliases, env, jobs
    {
      State(cwd, lastExit, pid, interactive, running, commands,
            history[..], historyCount, historyIndex,
            aliases[..], aliasCount, env[..], jobs[..], jobCount)
    }

    ghost predicate Valid()
      reads this, history, aliases, env, jobs
    {
      ValidState(Abs()) && aliases != env
    }

    /** Program start: the statics are zero (the environment table empty),
        then `shell_init` runs; `currentPid` is what `getpid()` returns. */
    constructor (currentPid: int)
      ensures Valid() && Abs() == ShellSpec.Init(seq(MaxEnv, _ => NoSlot), currentPid)
    {
      history := new Entry[RingSize](_ => NoEntry);
      aliases := new Slot<string>[ShellMaxAlias](_ => NoSlot);
      env := new Slot<string>[MaxEnv](_ => NoSlot);
      jobs := new Job[MaxJobs](_ => NoJob);
      new;
      assert env[..] == seq(MaxEnv, _ => NoSlot);
      Init(currentPid);
    }

    /** `shell_init`: zero `shell_state`, the registry and the job table and
        register the builtins; the environment table is left as it is. */
    method Init(currentPid: int)
      requires history.Length == RingSize && aliases.Length == ShellMaxAlias && aliases != env
      requires env.Length == MaxEnv && NulFreeValues(env[..]) && jobs.Length == MaxJobs
      modifies this, history, aliases, jobs
      ensures Valid() && Abs() == ShellSpec.Init(old(env[..]), currentPid)
    {
      Zero(currentPid);
      BuiltinInit();
      InitState(old(env[..]), currentPid);
    }

    /** The assignments and `memset`s at the top of `shell_init`. */
    method Zero(currentPid: int)
      requires history.Length == RingSize && aliases.Length == ShellMaxAlias
      requires jobs.Length == MaxJobs && aliases != env
      modifies this, history, aliases, jobs
      ensures Abs() == Zeroed(old(env[..]), currentPid)
    {
      Fill(history, NoEntry);
      Fill(aliases, NoSlot);
      Fill(jobs, NoJob);
      cwd, lastExit, pid, interactive, running, commands := "/", 0, currentPid, true, true, [];
      historyCount, historyIndex, aliasCount, jobCount := 0, 0, 0, 0;
    }

    /** `memset` of a table to its zero value. */
    static method Fill<T>(a: array<T>, v: T)
      modifies a
      ensures a[..] == Filled(a.Length, v)
    {
      forall i | 0 <= i < a.Length { a[i] := v; }
    }

    /** `shell_builtin_init`: the 26 registrations, in table order. */
    method BuiltinInit()
      modifies this
      ensures Abs() == RegisterAll(old(Abs()), BuiltinTable)
    {
      RegisterTable(BuiltinTable);
    }

    /** The registrations of a table of builtins, in table order. */
    method RegisterTable(t: seq<(string, string, Handler)>)
      modifies this
      ensures Abs() == RegisterAll(old(Abs()), t)
    {
      var k := 0;
      while k < |t|
        invariant 0 <= k <= |t|
        invariant Abs() == RegisterAll(old(Abs()), t[..k])
      {
        var e := t[k];
        var _ := RegisterCommand(e.0, e.1, e.2);
        assert t[..k + 1][..k] == t[..k];
        k := k + 1;
      }
      assert t[..k] == t;
    }

    /** `shell_register_command`. */
    method RegisterCommand(name: string, desc: string, h: Handler) returns (r: int)
      modifies this
      ensures (Abs(), r) == Register(old(Abs()), name, desc, h)
    {
      if |commands| >= MaxCommands {
        return SysErr;
      }
      commands := commands + [Command(Truncate(name, NameMax), Truncate(desc, DescMax), h, true)];
      return Ok;
    }

    /** `shell_find_command`: the index of the slot, or -1 for NULL. */
    method FindCommand(name: string) returns (r: int)
      ensures r == FindCommandIn(commands, name)
    {
      var i := 0;
      while i < |commands|
        invariant 0 <= i <= |commands|
        invariant forall j :: 0 <= j < i ==> commands[j].name != name
      {
        if commands[i].name == name {
          return i;
        }
        i := i + 1;
      }
      return -1;
    }

    // -------------------------------------------------------------------
    // History.

    method HistoryAdd(cmd: string)
      requires Valid()
      modifies this, history
      ensures Valid() && Abs() == ShellSpec.HistoryAdd(old(Abs()), cmd)
    {
      assert RingShape(ShellSpec.HistoryAdd(Abs(), cmd)) by {
        HistoryAddRemembers(Abs(), cmd);
      }
      if cmd == [] {
        return;
      }
      if historyCount > 0 {
        var last := (historyIndex - 1 + RingSize) % RingSize;
        if history[last].command == cmd {
          return;
        }
      }
      history[historyIndex], historyIndex, historyCount :=
        Entry(Truncate(cmd, TextMax), historyCount), (historyIndex + 1) % RingSize,
        if historyCount < RingSize then historyCount + 1 else historyCount;
    }

    method HistoryGet(i: int) returns (r: Option<string>)
      requires Valid()
      ensures r == ShellSpec.HistoryGet(Abs(), i)
    {
      if i < 0 || i >= historyCount {
        return None;
      }
      var actual := (historyIndex - historyCount + i + RingSize) % RingSize;
      return Some(history[actual].command);
    }

    method HistoryClear()
      requires Valid()
      modifies this
      ensures Valid() && Abs() == ShellSpec.HistoryClear(old(Abs()))
    {
      historyCount := 0;
      historyIndex := 0;
    }

    // -------------------------------------------------------------------
    // Aliases and environment.

    method AliasSet(name: string, value: string) returns (r: int)
      requires Valid()
      modifies this, aliases
      ensures Valid() && (Abs(), r) == ShellSpec.AliasSet(old(Abs()), name, value)
    {
      AliasCommandsValid(Abs(), ["alias", name, value]);
      var ok, inserted := UpsertInPlace(aliases, name, Truncate(value, TextMax));
      if !ok {
        return SysErr;
      }
      if inserted {
        aliasCount := aliasCount + 1;
      }
      return Ok;
    }

    method AliasGet(name: string) returns (r: Option<string>)
      ensures r == ShellSpec.AliasGet(Abs(), name)
    {
      var i := Find(aliases, name);
      if i >= 0 {
        return Some(aliases[i].val);
      }
      return None;
    }

    method AliasRemove(name: string) returns (r: int)
      requires Valid()
      modifies this, aliases
      ensures Valid() && (Abs(), r) == ShellSpec.AliasRemove(old(Abs()), name)
    {
      AliasCommandsValid(Abs(), ["unalias", name]);
      var ok := RemoveInPlace(aliases, name);
      if !ok {
        return SysErr;
      }
      aliasCount := aliasCount - 1;
      return Ok;
    }

    method GetEnv(name: string) returns (r: Option<string>)
      ensures r == ShellSpec.GetEnv(Abs(), name)
    {
      var i := Find(env, name);
      if i >= 0 {
        return Some(env[i].val);
      }
      return None;
    }

    method SetEnv(name: string, value: string) returns (r: int)
      requires Valid() && Nul !in value
      modifies env
      ensures Valid() && (Abs(), r) == ShellSpec.SetEnv(old(Abs()), name, value)
    {
      SetEnvValid(Abs(), name, value);
      var ok, _ := UpsertInPlace(env, name, Truncate(value, TextMax));
      return if ok then Ok else SysErr;
    }

    method UnsetEnv(name: string) returns (r: int)
      requires Valid()
      modifies env
      ensures Valid() && (Abs(), r) == ShellSpec.UnsetEnv(old(Abs()), name)
    {
      SetEnvValid(Abs(), name, "");
      var ok := RemoveInPlace(env, name);
      return if ok then Ok else SysErr;
    }

    // -------------------------------------------------------------------
    // Jobs.

    method JobCreate(jobPid: int, command: string, foreground: bool) returns (r: int)
      requires Valid()
      modifies this, jobs
      ensures Valid() && (Abs(), r) == ShellSpec.JobCreate(old(Abs()), jobPid, command, foreground)
    {
      assert JobIds(ShellSpec.JobCreate(Abs(), jobPid, command, foreground).0.jobs) by {
        JobCreateResult(Abs(), jobPid, command, foreground);
      }
      var i := FreeJobSlot();
      if i < 0 {
        return SysErr;
      }
      jobs[i], jobCount := Job(i + 1, jobPid, jobPid, Running, Truncate(command, TextMax), foreground), jobCount + 1;
      return i + 1;
    }

    /** The slot search of `shell_job_create`: the first Done or never-used
        job. */
    method FreeJobSlot() returns (r: int)
      requires Valid()
      ensures r == FreeJob(jobs[..])
    {
      var i := 0;
      while i < MaxJobs
        invariant 0 <= i <= MaxJobs
        invariant forall j :: 0 <= j < i ==> !Reusable(jobs[j])
      {
        if jobs[i].state == Done || jobs[i].id == 0 {
          return i;
        }
        i := i + 1;
      }
      return -1;
    }

    method JobUpdate(id: int, s: JobState)
      requires Valid()
      modifies jobs
      ensures Valid() && Abs() == ShellSpec.JobUpdate(old(Abs()), id, s)
    {
      assert JobIds(ShellSpec.JobUpdate(Abs(), id, s).jobs) by {
        JobUpdateResult(Abs(), id, s);
      }
      var i := JobFind(id);
      if i >= 0 {
        jobs[i] := jobs[i].(state := s);
      }
    }

    /** `shell_job_find`: the slot index, or -1 for NULL. */
    method JobFind(id: int) returns (r: int)
      ensures r == JobWithId(jobs[..], id)
    {
      var i := 0;
      while i < jobs.Length
        invariant 0 <= i <= jobs.Length
        invariant forall j :: 0 <= j < i ==> jobs[j].id != id
      {
        if jobs[i].id == id {
          return i;
        }
        i := i + 1;
      }
      return -1;
    }

    /** `shell_job_find_by_pid`. */
    method JobFindByPid(jobPid: int) returns (r: int)
      ensures r == JobWithPid(jobs[..], jobPid)
    {
      var i := 0;
      while i < jobs.Length
        invariant 0 <= i <= jobs.Length
        invariant forall j :: 0 <= j < i ==> jobs[j].pid != jobPid
      {
        if jobs[i].pid == jobPid {
          return i;
        }
        i := i + 1;
      }
      return -1;
    }

    /** `shell_bg` (the `resume` call is a kernel stub). */
    method JobBg(jobPid: int) returns (r: int)
      requires Valid()
      modifies jobs
      ensures Valid() && (Abs(), r) == ShellBg(old(Abs()), jobPid)
    {
      BgTransition(Abs(), jobPid);
      var i := JobFindByPid(jobPid);
      if i < 0 {
        return SysErr;
      }
      if jobs[i].state == Stopped {
        jobs[i] := jobs[i].(state := Running, foreground := false);
      }
      return Ok;
    }

    /** `shell_fg` up to its state update. */
    method JobFg(jobPid: int) returns (r: int)
      requires Valid()
      modifies jobs
      ensures Valid() && (Abs(), r) == ShellFg(old(Abs()), jobPid)
    {
      FgTransition(Abs(), jobPid);
      var i := JobFindByPid(jobPid);
      if i < 0 {
        return SysErr;
      }
      jobs[i] := jobs[i].(state := Running, foreground := true);
      return Ok;
    }

    // -------------------------------------------------------------------
    // Builtins.

    /** `shell_exit`. */
    method Exit(status: int)
      modifies this
      ensures Abs() == ExitShell(old(Abs()), status)
    {
      running := false;
      lastExit := status;
    }

    method CmdExit(argv: seq<string>) returns (r: int)
      modifies this
      ensures (Abs(), r) == ShellSpec.CmdExit(old(Abs()), argv)
    {
      var status := ShellOk;
      if |argv| > 1 {
        status := Atoi(argv[1]);
      }
      Exit(status);
      return status;
    }

    method CmdCd(argv: seq<string>) returns (r: int)
      requires Valid() && forall w :: w in argv ==> Nul !in w
      modifies this, env
      ensures Valid() && (Abs(), r) == ShellSpec.CmdCd(old(Abs()), argv)
    {
      CdValid(Abs(), argv);
      var dir: string;
      if |argv| < 2 {
        var home := GetEnv("HOME");
        dir := if home.Some? then home.value else "/";
        HomeNoNul(env[..]);
      } else {
        dir := argv[1];
        assert argv[1] in argv;
      }
      cwd := Truncate(dir, ShellMaxPath - 1);
      TruncateNoNul(dir, ShellMaxPath - 1);
      var _ := SetEnv("PWD", cwd);
      return ShellOk;
    }

    method CmdSet(argv: seq<string>) returns (r: int)
      requires Valid() && forall w :: w in argv ==> Nul !in w
      modifies env
      ensures Valid() && (Abs(), r) == ShellSpec.CmdSet(old(Abs()), argv)
    {
      if |argv| < 3 {
        return ShellOk;
      }
      assert argv[2] in argv;
      r := SetEnv(argv[1], argv[2]);
    }

    method CmdUnset(argv: seq<string>) returns (r: int)
      requires Valid()
      modifies env
      ensures Valid() && (Abs(), r) == ShellSpec.CmdUnset(old(Abs()), argv)
    {
      if |argv| < 2 {
        return ShellError;
      }
      r := UnsetEnv(argv[1]);
    }

    method CmdExport(argv: seq<string>) returns (r: int)
      requires Valid() && forall w :: w in argv ==> Nul !in w
      modifies env
      ensures Valid() && (Abs(), r) == ShellSpec.CmdExport(old(Abs()), argv)
    {
      if |argv| < 2 {
        return ShellOk;
      }
      var eq := IndexOf(argv[1], '=');
      if eq >= 0 {
        assert argv[1] in argv;
        var value := argv[1][eq + 1..];
        assert forall k :: 0 <= k < |value| ==> value[k] == argv[1][eq + 1 + k];
        var _ := SetEnv(argv[1][..eq], value);
      }
      return ShellOk;
    }

    method CmdAlias(argv: seq<string>) returns (r: int)
      requires Valid()
      modifies this, aliases
      ensures Valid() && (Abs(), r) == ShellSpec.CmdAlias(old(Abs()), argv)
    {
      if |argv| < 3 {
        return ShellOk;
      }
      r := AliasSet(argv[1], argv[2]);
    }

    method CmdUnalias(argv: seq<string>) returns (r: int)
      requires Valid()
      modifies this, aliases
      ensures Valid() && (Abs(), r) == ShellSpec.CmdUnalias(old(Abs()), argv)
    {
      if |argv| < 2 {
        return ShellError;
      }
      r := AliasRemove(argv[1]);
    }

    method CmdHistory(argv: seq<string>) returns (r: int)
      requires Valid()
      modifies this
      ensures Valid() && (Abs(), r) == ShellSpec.CmdHistory(old(Abs()), argv)
    {
      if |argv| > 1 && argv[1] == "-c" {
        HistoryClear();
      }
      return ShellOk;
    }

    method CmdFg(argv: seq<string>) returns (r: int)
      requires Valid()
      modifies jobs
      ensures Valid() && (Abs(), r) == ShellSpec.CmdFg(old(Abs()), argv)
    {
      var id := if |argv| < 2 then jobCount else Atoi(argv[1]);
      var i := JobFind(id);
      if i < 0 {
        return ShellError;
      }
      var _ := JobFg(jobs[i].pid);
      return ShellOk;
    }

    method CmdBg(argv: seq<string>) returns (r: int)
      requires Valid()
      modifies jobs
      ensures Valid() && (Abs(), r) == ShellSpec.CmdBg(old(Abs()), argv)
    {
      var id := if |argv| < 2 then jobCount else Atoi(argv[1]);
      var i := JobFind(id);
      if i < 0 {
        return ShellError;
      }
      var _ := JobBg(jobs[i].pid);
      return ShellOk;
    }

    /** `cmd_time`: join the operands with blanks and execute the result. */
    method CmdTime(argv: seq<string>, fuel: nat) returns (r: int)
      requires Valid() && forall w :: w in argv ==> Nul !in w
      modifies this, history, aliases, env, jobs
      ensures Valid() && (Abs(), r) == ShellSpec.Dispatch(old(Abs()), Time, argv, fuel)
      decreases fuel, 0
    {
      if |argv| < 2 || fuel == 0 {
        return ShellError;
      }
      assert forall w :: w in argv[1..] ==> w in argv;
      JoinChar(argv[1..], Nul);
      r := Execute(Join(argv[1..]), fuel - 1);
    }

    /** `cmd->func(argc, argv)` for the builtin `h`. */
    method Dispatch(h: Handler, argv: seq<string>, fuel: nat) returns (r: int)
      requires Valid() && forall w :: w in argv ==> Nul !in w
      modifies this, history, aliases, env, jobs
      ensures Valid() && (Abs(), r) == ShellSpec.Dispatch(old(Abs()), h, argv, fuel)
      decreases fuel, 1
    {
      match h {
        case Exit => r := CmdExit(argv);
        case Cd => r := CmdCd(argv);
        case Set => r := CmdSet(argv);
        case Unset => r := CmdUnset(argv);
        case Export => r := CmdExport(argv);
        case Alias => r := CmdAlias(argv);
        case Unalias => r := CmdUnalias(argv);
        case History => r := CmdHistory(argv);
        case Fg => r := CmdFg(argv);
        case Bg => r := CmdBg(argv);
        case Kill => r := if |argv| < 2 then ShellError else ShellOk;
        case Sleep => r := if |argv| < 2 then ShellError else ShellOk;
        case Time => r := CmdTime(argv, fuel);
        case Test => r := TestStatus(argv);
        case True => r := ShellOk;
        case False => r := ShellError;
        case _ => r := ShellOk;
      }
    }

    /** Index of the first non-blank character (the skip loop at the top of
        `shell_execute`). */
    static method SkipLeading(line: string) returns (j: int)
      ensures 0 <= j <= |line| && j == SkipBlanks(line, 0)
    {
      j := 0;
      while j < |line| && IsBlank(line[j])
        invariant 0 <= j <= |line|
        invariant SkipBlanks(line, j) == SkipBlanks(line, 0)
      {
        j := j + 1;
      }
    }

    /** The words of `line` as `shell_execute` obtains them: truncate to
        `SHELL_MAX_LINE - 1`, `shell_expand_variables` into a fresh buffer,
        then `shell_parse_line` with at most `SHELL_MAX_ARGS - 1` words. */
    method Split(line: string) returns (words: seq<string>)
      requires Valid() && Nul !in line
      ensures words == Words(Abs(), line)
      ensures forall w :: w in words ==> Nul !in w
    {
      var expanded := new char[ShellMaxLine];
      var lineCopy := Truncate(line, TextMax);
      Expand(lineCopy, env[..], lastExit, pid, expanded, ShellMaxLine);
      ghost var e := Expansion(lineCopy, env[..], lastExit, pid, ShellMaxLine);
      TruncateNoNul(line, TextMax);
      ExpandFromNoNul(lineCopy, 0, [], env[..], lastExit, pid, ShellMaxLine);
      StoredCStr(expanded[..], 0, e);
      assert expanded[..][|e|] == Nul;
      var argv := new int[ShellMaxArgs];
      var argc := ParseLine(expanded, argv, ShellMaxArgs);
      ghost var toks := Tokens(e, ShellMaxArgs);
      TokensFromChars(e, 0, ShellMaxArgs - 1, Nul);
      var buf, offsets := expanded[..], argv[..argc];
      assert forall k :: 0 <= k < argc ==> Stored(buf, offsets[k], toks[k]);
      words := [];
      for k := 0 to argc
        invariant words == toks[..k]
      {
        assert toks[k] in toks;
        StoredCStr(buf, offsets[k], toks[k]);
        words := words + [CStrAt(buf, offsets[k])];
      }
      assert words == toks;
    }

    /** `shell_execute(line)` for a C string `line`. */
    method Execute(line: string, fuel: nat) returns (r: int)
      requires Valid() && Nul !in line
      modifies this, history, aliases, env, jobs
      ensures Valid() && (Abs(), r) == ShellSpec.Execute(old(Abs()), line, fuel)
      decreases fuel, 3
    {
      var j := SkipLeading(line);
      if j == |line| || line[j] == '#' {
        return ShellOk;
      }
      if interactive {
        HistoryAdd(line);
      }
      assert Abs() == Recorded(old(Abs()), line);
      var words := Split(line);
      r := RunWords(words, fuel);
    }

    /** The second half of `shell_execute`: look the command up and run it. */
    method RunWords(words: seq<string>, fuel: nat) returns (r: int)
      requires Valid() && forall w :: w in words ==> Nul !in w
      modifies this, history, aliases, env, jobs
      ensures Valid() && (Abs(), r) == ShellSpec.RunWords(old(Abs()), words, fuel)
      decreases fuel, 2
    {
      if |words| == 0 {
        return ShellOk;
      }
      var c := FindCommand(words[0]);
      if c < 0 {
        lastExit := ShellNotFound;
        return ShellNotFound;
      }
      r := Dispatch(commands[c].handler, words, fuel);
      lastExit := r;
    }
  }
}
