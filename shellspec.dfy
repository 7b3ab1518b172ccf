/** The interactive shell of shell.c as a value: `shell_state`, the command
    registry, the job table and the environment table, with every operation
    of the shell written as a function from the old state to the new one
    (and the C return value).  The `Shell` class carries the same operations
    out in place and is proved equal to these functions. */
module ShellSpec {
  import opened Interpreter
  import opened CString
  import opened Slots
  import opened Lexer
  import opened Expander
  import opened TestCmd

  /** Longest text a 256-byte field keeps (`SHELL_MAX_LINE - 1`). */
  const TextMax: nat := 255
  /** Longest description a command keeps (`strncpy(description, desc, 127)`). */
  const DescMax: nat := 127
  const MaxCommands: nat := 128
  const MaxJobs: nat := 32
  const MaxEnv: nat := 64
  const RingSize: nat := 50

  /** The builtin functions a registry slot can point to. */
  datatype Handler = Help | Exit | Cd | Pwd | Echo | Clear | Set | Unset | Export | Env
                   | Alias | Unalias | History | Ps | Kill | Jobs | Fg | Bg | Mem | Sleep
                   | Time | Test | True | False

  datatype Command = Command(name: string, description: string, handler: Handler, builtin: bool)

  datatype JobState = Running | Stopped | Done | Killed

  datatype Job = Job(id: int, pid: int, pgid: int, state: JobState, command: string, foreground: bool)

  /** A zeroed job slot (`JOB_RUNNING` is the enumeration's 0). */
  const NoJob := Job(0, 0, 0, Running, "", false)

  /** A history entry; the never-written `timestamp` field is not modelled. */
  datatype Entry = Entry(command: string, number: int)

  const NoEntry := Entry("", 0)

  const NoSlot: Slot<string> := Slot("", "", false)

  /** `commands` holds the `shell_command_count` registered slots in order. */
  datatype State = State(
    cwd: string, lastExit: int, pid: int, interactive: bool, running: bool,
    commands: seq<Command>,
    history: seq<Entry>, historyCount: int, historyIndex: int,
    aliases: seq<Slot<string>>, aliasCount: int,
    env: seq<Slot<string>>,
    jobs: seq<Job>, jobCount: int)

  /** Every job slot is zeroed or carries the id its creation gave it. */
  predicate JobIds(jobs: seq<Job>)
  {
    forall j :: 0 <= j < |jobs| ==> jobs[j].id == 0 || jobs[j].id == j + 1
  }

  /** The history ring's shape: 50 entries, a count of at most 50 and a
      cursor that equals the count until the ring is full. */
  predicate RingShape(st: State)
  {
    |st.history| == RingSize && 0 <= st.historyCount <= RingSize && 0 <= st.historyIndex < RingSize &&
    (st.historyCount < RingSize ==> st.historyIndex == st.historyCount)
  }

  /** What every operation of the shell keeps. */
  ghost predicate ValidState(st: State)
  {
    |st.commands| <= MaxCommands && RingShape(st) &&
    |st.aliases| == ShellMaxAlias && st.aliasCount == Count(st.aliases) &&
    |st.env| == MaxEnv && NulFreeValues(st.env) &&
    |st.jobs| == MaxJobs && JobIds(st.jobs)
  }

  // ---------------------------------------------------------------------
  // Command registry.

  /** `shell_find_command`: index of the first registered command named
      `name`, or -1. */
  function FindCommandIn(cmds: seq<Command>, name: string): (r: int)
    ensures -1 <= r < |cmds|
    ensures r >= 0 ==> cmds[r].name == name && forall j :: 0 <= j < r ==> cmds[j].name != name
    ensures r < 0 <==> forall j :: 0 <= j < |cmds| ==> cmds[j].name != name
  {
    if cmds == [] then -1
    else if cmds[0].name == name then 0
    else
      var r := FindCommandIn(cmds[1..], name);
      assert forall j :: 1 <= j < |cmds| ==> cmds[j] == cmds[1..][j - 1];
      if r < 0 then -1 else r + 1
  }

  /** `shell_register_command`: append a builtin slot, or SYSERR when all
      128 are taken. */
  function Register(st: State, name: string, desc: string, h: Handler): (State, int)
  {
    if |st.commands| >= MaxCommands then (st, SysErr)
    else (st.(commands := st.commands + [Command(Truncate(name, NameMax), Truncate(desc, DescMax), h, true)]), Ok)
  }

  /** The 26 registrations of `shell_builtin_init`, in order. */
  const BuiltinTable: seq<(string, string, Handler)> := [
    ("help", "Display help information", Help),
    ("exit", "Exit the shell", Exit),
    ("quit", "Exit the shell", Exit),
    ("cd", "Change directory", Cd),
    ("pwd", "Print working directory", Pwd),
    ("echo", "Display text", Echo),
    ("clear", "Clear screen", Clear),
    ("set", "Set shell variable", Set),
    ("unset", "Unset shell variable", Unset),
    ("export", "Export variable", Export),
    ("env", "Display environment", Env),
    ("alias", "Create alias", Alias),
    ("unalias", "Remove alias", Unalias),
    ("history", "Show command history", History),
    ("ps", "List processes", Ps),
    ("kill", "Kill process", Kill),
    ("jobs", "List background jobs", Jobs),
    ("fg", "Bring job to foreground", Fg),
    ("bg", "Send job to background", Bg),
    ("mem", "Display memory statistics", Mem),
    ("sleep", "Sleep for seconds", Sleep),
    ("time", "Time a command", Time),
    ("test", "Evaluate expression", Test),
    ("[", "Test (alternate form)", Test),
    ("true", "Return success", True),
    ("false", "Return failure", False)
  ]

  /** Registering every entry of `t` in order. */
  function RegisterAll(st: State, t: seq<(string, string, Handler)>): (r: State)
    ensures r == st.(commands := r.commands)
  {
    if t == [] then st
    else
      var e := t[|t| - 1];
      Register(RegisterAll(st, t[..|t| - 1]), e.0, e.1, e.2).0
  }

  /** The registry slots the entries of `t` become when no text is cut. */
  function Entries(t: seq<(string, string, Handler)>): (r: seq<Command>)
    ensures |r| == |t|
  {
    seq(|t|, k requires 0 <= k < |t| => Command(t[k].0, t[k].1, t[k].2, true))
  }

  /** The registry `shell_builtin_init` leaves behind. */
  function Builtins(): seq<Command>
  {
    Entries(BuiltinTable)
  }

  /** `shell_init`: zero `shell_state`, the registry and the job table, then
      register the builtins.  The environment table is a separate static
      array that `shell_init` does not touch; `pid` is what `getpid()`
      returns. */
  function Init(env: seq<Slot<string>>, pid: int): (r: State)
    ensures RingShape(r)
  {
    RegisterAll(Zeroed(env, pid), BuiltinTable)
  }

  /** The state `shell_init` sets before it registers the builtins. */
  function Zeroed(env: seq<Slot<string>>, pid: int): State
  {
    State("/", 0, pid, true, true, [],
          Filled(RingSize, NoEntry), 0, 0,
          Filled(ShellMaxAlias, NoSlot), 0,
          env,
          Filled(MaxJobs, NoJob), 0)
  }

  /** A table of `n` copies of `v`: what `memset` leaves. */
  function Filled<T>(n: nat, v: T): (r: seq<T>)
    ensures |r| == n && forall i :: 0 <= i < n ==> r[i] == v
  {
    seq(n, _ => v)
  }

  /** The command a name dispatches to, if any. */
  function HandlerOf(cmds: seq<Command>, name: string): Option<Handler>
  {
    var i := FindCommandIn(cmds, name);
    if i >= 0 then Some(cmds[i].handler) else None
  }

  // ---------------------------------------------------------------------
  // History ring.

  /** Ring slot of the `i`-th oldest remembered entry. */
  function RingSlot(st: State, i: int): (r: int)
    requires RingShape(st)
    ensures 0 <= r < RingSize
  {
    (st.historyIndex - st.historyCount + i + RingSize) % RingSize
  }

  /** `shell_history_add`: ignore an empty command and a repeat of the most
      recent entry; otherwise store the command (cut to 255 characters) at
      the cursor, numbered by the old count, and advance the cursor modulo
      50; the count stops growing at 50. */
  function HistoryAdd(st: State, cmd: string): State
    requires RingShape(st)
  {
    if cmd == [] then st
    else if st.historyCount > 0 && st.history[(st.historyIndex - 1 + RingSize) % RingSize].command == cmd then st
    else st.(history := st.history[st.historyIndex := Entry(Truncate(cmd, TextMax), st.historyCount)],
             historyIndex := (st.historyIndex + 1) % RingSize,
             historyCount := if st.historyCount < RingSize then st.historyCount + 1 else st.historyCount)
  }

  /** `shell_history_get(i)`: NULL outside `[0, count)`. */
  function HistoryGet(st: State, i: int): Option<string>
    requires RingShape(st)
  {
    if i < 0 || i >= st.historyCount then None else Some(st.history[RingSlot(st, i)].command)
  }

  /** `shell_history_clear`. */
  function HistoryClear(st: State): State
  {
    st.(historyCount := 0, historyIndex := 0)
  }

  /** The remembered commands, oldest first, as `history_list` shows them. */
  function Remembered(st: State): (r: seq<string>)
    requires RingShape(st)
    ensures |r| == st.historyCount
  {
    seq(st.historyCount, i requires 0 <= i < st.historyCount => st.history[RingSlot(st, i)].command)
  }

  /** A reference definition of the same history: the last 50 commands of an
      unbounded list. */
  function Recent(es: seq<string>): (r: seq<string>)
    ensures |r| <= RingSize
  {
    if |es| <= RingSize then es else es[|es| - RingSize..]
  }

  function Remember(es: seq<string>, cmd: string): seq<string>
  {
    if cmd == [] || (es != [] && es[|es| - 1] == cmd) then es else Recent(es + [Truncate(cmd, TextMax)])
  }

  // ---------------------------------------------------------------------
  // Aliases and environment.

  /** `shell_alias_set`: value cut to 255 characters, name to 63. */
  function AliasSet(st: State, name: string, value: string): (State, int)
  {
    match Upsert(st.aliases, name, Truncate(value, TextMax))
    case None => (st, SysErr)
    case Some(a) => (st.(aliases := a, aliasCount := st.aliasCount + (if FindIn(st.aliases, name) >= 0 then 0 else 1)), Ok)
  }

  /** `shell_alias_get`. */
  function AliasGet(st: State, name: string): Option<string>
  {
    Lookup(st.aliases, name)
  }

  /** `shell_alias_remove`. */
  function AliasRemove(st: State, name: string): (State, int)
  {
    match Remove(st.aliases, name)
    case None => (st, SysErr)
    case Some(a) => (st.(aliases := a, aliasCount := st.aliasCount - 1), Ok)
  }

  /** `shell_getenv`. */
  function GetEnv(st: State, name: string): Option<string>
  {
    Lookup(st.env, name)
  }

  /** `shell_setenv`: value cut to 255 characters, name to 63. */
  function SetEnv(st: State, name: string, value: string): (State, int)
  {
    match Upsert(st.env, name, Truncate(value, TextMax))
    case None => (st, SysErr)
    case Some(e) => (st.(env := e), Ok)
  }

  /** `shell_unsetenv`. */
  function UnsetEnv(st: State, name: string): (State, int)
  {
    match Remove(st.env, name)
    case None => (st, SysErr)
    case Some(e) => (st.(env := e), Ok)
  }

  // ---------------------------------------------------------------------
  // Job table.

  predicate Reusable(j: Job) { j.state == Done || j.id == 0 }

  /** The scan the three job lookups share: the first slot satisfying
      `p`, or -1 when none does. */
  function FirstJob(jobs: seq<Job>, p: Job -> bool): (r: int)
    ensures -1 <= r < |jobs|
    ensures r >= 0 ==> p(jobs[r]) && forall j :: 0 <= j < r ==> !p(jobs[j])
    ensures r < 0 <==> forall j :: 0 <= j < |jobs| ==> !p(jobs[j])
  {
    if jobs == [] then -1
    else if p(jobs[0]) then 0
    else
      var r := FirstJob(jobs[1..], p);
      assert forall j :: 1 <= j < |jobs| ==> jobs[j] == jobs[1..][j - 1];
      if r < 0 then -1 else r + 1
  }

  /** The slot `shell_job_create` takes: the first Done or never-used one. */
  function FreeJob(jobs: seq<Job>): (r: int)
    ensures -1 <= r < |jobs|
    ensures r >= 0 ==> Reusable(jobs[r]) && forall j :: 0 <= j < r ==> !Reusable(jobs[j])
    ensures r < 0 <==> forall j :: 0 <= j < |jobs| ==> !Reusable(jobs[j])
  {
    FirstJob(jobs, Reusable)
  }

  /** `shell_job_find`: the first slot whose id is `id`, or -1. */
  function JobWithId(jobs: seq<Job>, id: int): (r: int)
    ensures -1 <= r < |jobs|
    ensures r >= 0 ==> jobs[r].id == id && forall j :: 0 <= j < r ==> jobs[j].id != id
    ensures r < 0 <==> forall j :: 0 <= j < |jobs| ==> jobs[j].id != id
  {
    FirstJob(jobs, (j: Job) => j.id == id)
  }

  /** `shell_job_find_by_pid`: the first slot whose pid is `pid`, or -1. */
  function JobWithPid(jobs: seq<Job>, pid: int): (r: int)
    ensures -1 <= r < |jobs|
    ensures r >= 0 ==> jobs[r].pid == pid && forall j :: 0 <= j < r ==> jobs[j].pid != pid
    ensures r < 0 <==> forall j :: 0 <= j < |jobs| ==> jobs[j].pid != pid
  {
    FirstJob(jobs, (j: Job) => j.pid == pid)
  }

  /** `shell_job_create`: the new job's id, or SYSERR when no slot is free. */
  function JobCreate(st: State, pid: int, command: string, fg: bool): (State, int)
  {
    var i := FreeJob(st.jobs);
    if i < 0 then (st, SysErr)
    else (st.(jobs := st.jobs[i := Job(i + 1, pid, pid, Running, Truncate(command, TextMax), fg)],
              jobCount := st.jobCount + 1), i + 1)
  }

  /** `shell_job_update`: set the state of the first job with that id. */
  function JobUpdate(st: State, id: int, s: JobState): State
  {
    var i := JobWithId(st.jobs, id);
    if i < 0 then st else st.(jobs := st.jobs[i := st.jobs[i].(state := s)])
  }

  /** `shell_bg`: only a stopped job is resumed, in the background. */
  function ShellBg(st: State, pid: int): (State, int)
  {
    var i := JobWithPid(st.jobs, pid);
    if i < 0 then (st, SysErr)
    else if st.jobs[i].state == Stopped then
      (st.(jobs := st.jobs[i := st.jobs[i].(state := Running, foreground := false)]), Ok)
    else (st, Ok)
  }

  /** `shell_fg` up to its state update: any job becomes a running
      foreground job.  The wait that follows is not modelled. */
  function ShellFg(st: State, pid: int): (State, int)
  {
    var i := JobWithPid(st.jobs, pid);
    if i < 0 then (st, SysErr)
    else (st.(jobs := st.jobs[i := st.jobs[i].(state := Running, foreground := true)]), Ok)
  }

  // ---------------------------------------------------------------------
  // Builtins and dispatch.

  /** `shell_exit`. */
  function ExitShell(st: State, status: int): State
  {
    st.(running := false, lastExit := status)
  }

  /** The words of `argv[1..]` joined by single blanks (`cmd_time`). */
  function Join(ws: seq<string>): string
  {
    if ws == [] then [] else if |ws| == 1 then ws[0] else ws[0] + " " + Join(ws[1..])
  }

  function CmdExit(st: State, argv: seq<string>): (State, int)
  {
    var status := if |argv| > 1 then Atoi(argv[1]) else ShellOk;
    (ExitShell(st, status), status)
  }

  function CmdCd(st: State, argv: seq<string>): (State, int)
  {
    var dir := if |argv| < 2 then Home(st.env) else argv[1];
    var cwd := Truncate(dir, ShellMaxPath - 1);
    (SetEnv(st.(cwd := cwd), "PWD", cwd).0, ShellOk)
  }

  function CmdSet(st: State, argv: seq<string>): (State, int)
  {
    if |argv| < 3 then (st, ShellOk) else SetEnv(st, argv[1], argv[2])
  }

  function CmdUnset(st: State, argv: seq<string>): (State, int)
  {
    if |argv| < 2 then (st, ShellError) else UnsetEnv(st, argv[1])
  }

  function CmdExport(st: State, argv: seq<string>): (State, int)
  {
    if |argv| < 2 then (st, ShellOk)
    else
      var e := IndexOf(argv[1], '=');
      if e < 0 then (st, ShellOk) else (SetEnv(st, argv[1][..e], argv[1][e + 1..]).0, ShellOk)
  }

  function CmdAlias(st: State, argv: seq<string>): (State, int)
  {
    if |argv| < 3 then (st, ShellOk) else AliasSet(st, argv[1], argv[2])
  }

  function CmdUnalias(st: State, argv: seq<string>): (State, int)
  {
    if |argv| < 2 then (st, ShellError) else AliasRemove(st, argv[1])
  }

  function CmdHistory(st: State, argv: seq<string>): (State, int)
  {
    if |argv| > 1 && argv[1] == "-c" then (HistoryClear(st), ShellOk) else (st, ShellOk)
  }

  /** The job `fg` and `bg` mean: the one numbered by the operand, or, with
      none, the one numbered by the job count. */
  function JobOperand(st: State, argv: seq<string>): int
  {
    if |argv| < 2 then st.jobCount else Atoi(argv[1])
  }

  function CmdFg(st: State, argv: seq<string>): (State, int)
  {
    var i := JobWithId(st.jobs, JobOperand(st, argv));
    if i < 0 then (st, ShellError) else (ShellFg(st, st.jobs[i].pid).0, ShellOk)
  }

  function CmdBg(st: State, argv: seq<string>): (State, int)
  {
    var i := JobWithId(st.jobs, JobOperand(st, argv));
    if i < 0 then (st, ShellError) else (ShellBg(st, st.jobs[i].pid).0, ShellOk)
  }

  /** Call the builtin `h` with the words `argv` (`argv[0]` the command
      name).  `fuel` bounds how deeply `time` may re-enter `Execute`. */
  function Dispatch(st: State, h: Handler, argv: seq<string>, fuel: nat): (State, int)
    requires RingShape(st)
    decreases fuel, 0
  {
    match h
    case Exit => CmdExit(st, argv)
    case Cd => CmdCd(st, argv)
    case Set => CmdSet(st, argv)
    case Unset => CmdUnset(st, argv)
    case Export => CmdExport(st, argv)
    case Alias => CmdAlias(st, argv)
    case Unalias => CmdUnalias(st, argv)
    case History => CmdHistory(st, argv)
    case Fg => CmdFg(st, argv)
    case Bg => CmdBg(st, argv)
    case Kill => (st, if |argv| < 2 then ShellError else ShellOk)
    case Sleep => (st, if |argv| < 2 then ShellError else ShellOk)
    case Time =>
      if |argv| < 2 || fuel == 0 then (st, ShellError) else Execute(st, Join(argv[1..]), fuel - 1)
    case Test => (st, TestStatus(argv))
    case True => (st, ShellOk)
    case False => (st, ShellError)
    case Help => (st, ShellOk)
    case Pwd => (st, ShellOk)
    case Echo => (st, ShellOk)
    case Clear => (st, ShellOk)
    case Env => (st, ShellOk)
    case Ps => (st, ShellOk)
    case Jobs => (st, ShellOk)
    case Mem => (st, ShellOk)
  }

  /** The words `shell_execute` dispatches on: the line cut to 255
      characters, expanded into a 256-byte buffer and split into at most 31
      words. */
  function Words(st: State, line: string): seq<string>
  {
    Tokens(Expansion(Truncate(line, TextMax), st.env, st.lastExit, st.pid, ShellMaxLine), ShellMaxArgs)
  }

  /** The first non-blank character of `line` is missing or a `#`. */
  predicate Empty(line: string)
  {
    SkipBlanksBounds(line, 0);
    var j := SkipBlanks(line, 0);
    j == |line| || line[j] == '#'
  }

  /** An interactive shell records a line before running it. */
  function Recorded(st: State, line: string): State
    requires RingShape(st)
  {
    if st.interactive then HistoryAdd(st, line) else st
  }

  /** The second half of `shell_execute`: no words do nothing, an unknown
      command name gives 127, and otherwise the builtin runs; the status is
      also kept as the last exit status. */
  function RunWords(st: State, words: seq<string>, fuel: nat): (State, int)
    requires RingShape(st)
    decreases fuel, 1
  {
    if words == [] then (st, ShellOk)
    else
      var c := FindCommandIn(st.commands, words[0]);
      if c < 0 then (st.(lastExit := ShellNotFound), ShellNotFound)
      else
        var r := Dispatch(st, st.commands[c].handler, words, fuel);
        (r.0.(lastExit := r.1), r.1)
  }

  /** `shell_execute(line)`: the new state and the returned status. */
  function Execute(st: State, line: string, fuel: nat): (State, int)
    requires RingShape(st)
    decreases fuel, 2
  {
    if Empty(line) then (st, ShellOk)
    else
      var st1 := Recorded(st, line);
      RunWords(st1, Words(st1, line), fuel)
  }
}
