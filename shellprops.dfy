/** What the shell's operations promise, proved about the functions of
    `ShellSpec`: the registry's first-match lookup and capacity, the
    history ring against an unbounded reference list, the alias and
    environment tables, the job state machine, the builtins' statuses and
    `shell_execute`'s dispatch. */
module ShellProps {
  import opened Interpreter
  import opened CString
  import opened Slots
  import opened Lexer
  import opened Expander
  import opened TestCmd
  import opened ShellSpec

  // ---------------------------------------------------------------------
  // Registry.

  /** Registration fails exactly when 128 commands exist, and then changes
      nothing; otherwise it appends one slot. */
  lemma RegisterCapacity(st: State, name: string, desc: string, h: Handler)
    ensures Register(st, name, desc, h).1 == SysErr <==> |st.commands| >= MaxCommands
    ensures Register(st, name, desc, h).1 == SysErr ==> Register(st, name, desc, h).0 == st
    ensures Register(st, name, desc, h).1 != SysErr ==>
              Register(st, name, desc, h).1 == Ok &&
              Register(st, name, desc, h).0.commands[..|st.commands|] == st.commands &&
              |Register(st, name, desc, h).0.commands| == |st.commands| + 1
  {
  }

  /** A registered name of at most 63 characters is found; a name already
      present keeps resolving to its first registration (duplicates coexist,
      the first one wins). */
  lemma RegisterLookup(st: State, name: string, desc: string, h: Handler)
    requires |st.commands| < MaxCommands && |name| <= NameMax
    ensures HandlerOf(Register(st, name, desc, h).0.commands, name) ==
            if HandlerOf(st.commands, name).Some? then HandlerOf(st.commands, name) else Some(h)
  {
    var c := Register(st, name, desc, h).0.commands;
    assert forall j :: 0 <= j < |st.commands| ==> c[j] == st.commands[j];
    var i := FindCommandIn(st.commands, name);
    if i >= 0 {
      assert FindCommandIn(c, name) == i;
    } else {
      assert c[|st.commands|].name == name;
      assert FindCommandIn(c, name) == |st.commands|;
    }
  }

  /** Registration leaves every other name's lookup alone. */
  lemma RegisterFrame(st: State, name: string, desc: string, h: Handler, other: string)
    requires other != Truncate(name, NameMax)
    ensures HandlerOf(Register(st, name, desc, h).0.commands, other) == HandlerOf(st.commands, other)
  {
    var c := Register(st, name, desc, h).0.commands;
    if |st.commands| < MaxCommands {
      assert forall j :: 0 <= j < |st.commands| ==> c[j] == st.commands[j];
      assert c[|st.commands|].name != other;
      var i := FindCommandIn(st.commands, other);
      if i >= 0 {
        assert FindCommandIn(c, other) == i;
      } else {
        assert FindCommandIn(c, other) < 0;
      }
    }
  }

  /** Registering short entries with room to spare appends them verbatim. */
  lemma {:induction false} RegisterAllAppends(st: State, t: seq<(string, string, Handler)>)
    requires |st.commands| + |t| <= MaxCommands
    requires forall k :: 0 <= k < |t| ==> |t[k].0| <= NameMax && |t[k].1| <= DescMax
    ensures RegisterAll(st, t) == st.(commands := st.commands + Entries(t))
  {
    if t != [] {
      var u := t[..|t| - 1];
      RegisterAllAppends(st, u);
      assert Entries(t) == Entries(u) + [Command(t[|t| - 1].0, t[|t| - 1].1, t[|t| - 1].2, true)];
    }
  }

  /** `shell_init` leaves the builtin registry, an empty history, no
      aliases, zeroed jobs and the environment it found; the result keeps
      every invariant of the shell. */
  lemma InitState(env: seq<Slot<string>>, pid: int)
    requires |env| == MaxEnv && NulFreeValues(env)
    ensures ValidState(Init(env, pid))
    ensures Init(env, pid).commands == Builtins()
    ensures Init(env, pid).env == env && Init(env, pid).pid == pid
    ensures Init(env, pid).cwd == "/" && Init(env, pid).lastExit == 0
    ensures Init(env, pid).running && Init(env, pid).interactive
    ensures Init(env, pid).aliasCount == 0 && Init(env, pid).jobCount == 0
    ensures Remembered(Init(env, pid)) == []
    ensures forall n :: AliasGet(Init(env, pid), n) == None
    ensures forall j :: 0 <= j < MaxJobs ==> Init(env, pid).jobs[j] == NoJob
  {
    var zero := Zeroed(env, pid);
    RegisterAllAppends(zero, BuiltinTable);
    CountNone(zero.aliases);
  }

  /** The slot a name is first found at decides its handler. */
  lemma FirstNamed(cmds: seq<Command>, name: string, i: nat)
    requires i < |cmds| && cmds[i].name == name
    requires forall j :: 0 <= j < i ==> cmds[j].name != name
    ensures HandlerOf(cmds, name) == Some(cmds[i].handler)
  {
  }

  /** `exit` is the second builtin. */
  lemma ExitName()
    ensures HandlerOf(Builtins(), "exit") == Some(Exit)
  {
    var b := Builtins();
    assert b[0].name[0] != 'e';
    FirstNamed(b, "exit", 1);
  }

  /** `quit` is registered with `cmd_exit` too. */
  lemma QuitName()
    ensures HandlerOf(Builtins(), "quit") == Some(Exit)
  {
    var b := Builtins();
    assert forall j :: 0 <= j < 2 ==> b[j].name[0] != 'q';
    FirstNamed(b, "quit", 2);
  }

  /** `set` is the eighth builtin. */
  lemma SetName()
    ensures HandlerOf(Builtins(), "set") == Some(Set)
  {
    var b := Builtins();
    assert forall j :: 0 <= j < 7 ==> b[j].name[0] != 's';
    FirstNamed(b, "set", 7);
  }

  /** `[` is registered with `cmd_test`. */
  lemma BracketName()
    ensures HandlerOf(Builtins(), "[") == Some(Test)
  {
    var b := Builtins();
    assert forall j :: 0 <= j < 23 ==> b[j].name[0] != '[';
    FirstNamed(b, "[", 23);
  }

  // ---------------------------------------------------------------------
  // History.

  /** `shell_history_get` reads the remembered list. */
  lemma HistoryGetRemembered(st: State, i: int)
    requires RingShape(st)
    ensures HistoryGet(st, i) == if 0 <= i < |Remembered(st)| then Some(Remembered(st)[i]) else None
  {
  }

  /** `x % 50` for `0 <= x < 100`, by cases. */
  lemma Mod50(x: int)
    requires 0 <= x < 2 * RingSize
    ensures x % RingSize == if x < RingSize then x else x - RingSize
  {
  }

  /** The most recent entry sits just before the cursor. */
  lemma LastEntry(st: State)
    requires RingShape(st) && st.historyCount > 0
    ensures Remembered(st)[st.historyCount - 1] == st.history[(st.historyIndex - 1 + RingSize) % RingSize].command
  {
    Mod50(st.historyIndex - 1 + RingSize);
    Mod50(st.historyIndex - 1 + RingSize);
  }

  /** Before the ring is full an add appends. */
  lemma AddGrowing(st: State, cmd: string)
    requires RingShape(st) && st.historyCount < RingSize && cmd != []
    requires st.historyCount == 0 || st.history[(st.historyIndex - 1 + RingSize) % RingSize].command != cmd
    ensures RingShape(HistoryAdd(st, cmd))
    ensures Remembered(HistoryAdd(st, cmd)) == Remembered(st) + [Truncate(cmd, TextMax)]
  {
    var st' := HistoryAdd(st, cmd);
    var T := Remembered(st) + [Truncate(cmd, TextMax)];
    Mod50(st.historyIndex + 1);
    forall i | 0 <= i < |T| ensures Remembered(st')[i] == T[i] {
      Mod50(st'.historyIndex - st'.historyCount + i + RingSize);
      Mod50(st.historyIndex - st.historyCount + i + RingSize);
    }
  }

  /** Once the ring is full an add overwrites the oldest entry. */
  lemma AddFull(st: State, cmd: string)
    requires RingShape(st) && st.historyCount == RingSize && cmd != []
    requires st.history[(st.historyIndex - 1 + RingSize) % RingSize].command != cmd
    ensures RingShape(HistoryAdd(st, cmd))
    ensures Remembered(HistoryAdd(st, cmd)) == (Remembered(st) + [Truncate(cmd, TextMax)])[1..]
  {
    var st' := HistoryAdd(st, cmd);
    var T := (Remembered(st) + [Truncate(cmd, TextMax)])[1..];
    var x := st.historyIndex;
    Mod50(x + 1);
    forall i | 0 <= i < RingSize ensures Remembered(st')[i] == T[i] {
      Mod50(st'.historyIndex + i);
      Mod50(x + 1 + i);
      assert RingSlot(st', i) == (x + 1 + i) % RingSize;
      if i < RingSize - 1 {
        Mod50(x + (i + 1));
        assert RingSlot(st, i + 1) == (x + 1 + i) % RingSize;
      }
    }
  }

  /** Adding to the ring is remembering in the reference list: an empty
      command or a repeat of the last entry changes nothing, and otherwise
      the (cut) command is appended and only the 50 most recent survive. */
  lemma HistoryAddRemembers(st: State, cmd: string)
    requires RingShape(st)
    ensures RingShape(HistoryAdd(st, cmd))
    ensures Remembered(HistoryAdd(st, cmd)) == Remember(Remembered(st), cmd)
  {
    var n := st.historyCount;
    if n > 0 { LastEntry(st); }
    if cmd != [] && !(n > 0 && st.history[(st.historyIndex - 1 + RingSize) % RingSize].command == cmd) {
      if n < RingSize { AddGrowing(st, cmd); } else { AddFull(st, cmd); }
    }
  }

  /** `shell_history_clear` forgets everything. */
  lemma HistoryClearForgets(st: State)
    requires RingShape(st)
    ensures RingShape(HistoryClear(st)) && Remembered(HistoryClear(st)) == []
    ensures HistoryGet(HistoryClear(st), 0) == None
  {
  }

  /** A run of `shell_history_add` calls, in order. */
  function AddAll(st: State, cmds: seq<string>): (r: State)
    requires RingShape(st)
    ensures RingShape(r)
  {
    if cmds == [] then st
    else
      var prev := AddAll(st, cmds[..|cmds| - 1]);
      HistoryAddRemembers(prev, cmds[|cmds| - 1]);
      HistoryAdd(prev, cmds[|cmds| - 1])
  }

  /** No two neighbours equal, none empty, none longer than 255. */
  predicate Distinct(cmds: seq<string>)
  {
    (forall k :: 0 <= k < |cmds| ==> cmds[k] != [] && |cmds[k]| <= TextMax) &&
    (forall k :: 0 < k < |cmds| ==> cmds[k] != cmds[k - 1])
  }

  lemma RecentAppend(es: seq<string>, c: string)
    ensures Recent(Recent(es) + [c]) == Recent(es + [c])
  {
  }

  /** From an empty ring, adding commands with no two neighbours equal
      remembers the last 50 of them. */
  lemma {:induction false} HistoryOfCommands(st: State, cmds: seq<string>)
    requires RingShape(st) && st.historyCount == 0 && Distinct(cmds)
    ensures Remembered(AddAll(st, cmds)) == Recent(cmds)
  {
    if cmds != [] {
      var u := cmds[..|cmds| - 1];
      var c := cmds[|cmds| - 1];
      assert Distinct(u);
      HistoryOfCommands(st, u);
      HistoryAddRemembers(AddAll(st, u), c);
      RememberRecent(u, c);
      assert u + [c] == cmds;
    }
  }

  /** Remembering a new command that differs from the last one. */
  lemma RememberRecent(u: seq<string>, c: string)
    requires c != [] && |c| <= TextMax && (u != [] ==> u[|u| - 1] != c)
    ensures Remember(Recent(u), c) == Recent(u + [c])
  {
    var R := Recent(u);
    if R != [] {
      assert R[|R| - 1] == u[|u| - 1];
    }
    RecentAppend(u, c);
  }

  /** So after 50 + k such commands, entry 0 is the (k+1)-th one added and
      entry 49 the last one. */
  lemma OldestSurvivor(st: State, cmds: seq<string>)
    requires RingShape(st) && st.historyCount == 0 && Distinct(cmds) && |cmds| >= RingSize
    ensures HistoryGet(AddAll(st, cmds), 0) == Some(cmds[|cmds| - RingSize])
    ensures HistoryGet(AddAll(st, cmds), RingSize - 1) == Some(cmds[|cmds| - 1])
    ensures HistoryGet(AddAll(st, cmds), RingSize) == None
  {
    HistoryOfCommands(st, cmds);
    HistoryGetRemembered(AddAll(st, cmds), 0);
    HistoryGetRemembered(AddAll(st, cmds), RingSize - 1);
    HistoryGetRemembered(AddAll(st, cmds), RingSize);
  }

  // ---------------------------------------------------------------------
  // Aliases and environment.

  /** `shell_alias_set` fails exactly when the name is absent and all 32
      slots are taken, and then changes nothing.  On success the name (of at
      most 63 characters) looks up the value cut to 255 characters, every
      other name keeps its lookup, and `alias_count` still counts the
      defined slots. */
  lemma AliasSetResult(st: State, name: string, value: string, other: string)
    requires st.aliasCount == Count(st.aliases)
    ensures AliasSet(st, name, value).1 == SysErr <==>
              FindIn(st.aliases, name) < 0 && Count(st.aliases) == |st.aliases|
    ensures AliasSet(st, name, value).1 == SysErr ==> AliasSet(st, name, value).0 == st
    ensures AliasSet(st, name, value).1 != SysErr ==> AliasSet(st, name, value).1 == Ok
    ensures AliasSet(st, name, value).0.aliasCount == Count(AliasSet(st, name, value).0.aliases)
    ensures AliasSet(st, name, value).1 == Ok && |name| <= NameMax ==>
              AliasGet(AliasSet(st, name, value).0, name) == Some(Truncate(value, TextMax))
    ensures AliasSet(st, name, value).1 == Ok && other != name && other != Truncate(name, NameMax) ==>
              AliasGet(AliasSet(st, name, value).0, other) == AliasGet(st, other)
  {
    var v := Truncate(value, TextMax);
    UpsertFails(st.aliases, name, v);
    if Upsert(st.aliases, name, v).Some? {
      UpsertCount(st.aliases, name, v);
      if |name| <= NameMax { UpsertLookup(st.aliases, name, v); }
      if other != name && other != Truncate(name, NameMax) { UpsertFrame(st.aliases, name, v, other); }
    }
  }

  /** `shell_alias_remove` fails exactly for an absent name; otherwise, in
      a table without duplicate names, the name is gone, every other name
      keeps its lookup and `alias_count` still counts the defined slots. */
  lemma AliasRemoveResult(st: State, name: string, other: string)
    requires st.aliasCount == Count(st.aliases)
    ensures AliasRemove(st, name).1 == SysErr <==> AliasGet(st, name) == None
    ensures AliasRemove(st, name).1 == SysErr ==> AliasRemove(st, name).0 == st
    ensures AliasRemove(st, name).1 != SysErr ==> AliasRemove(st, name).1 == Ok
    ensures AliasRemove(st, name).0.aliasCount == Count(AliasRemove(st, name).0.aliases)
    ensures UniqueNames(st.aliases) ==> AliasGet(AliasRemove(st, name).0, name) == None
    ensures UniqueNames(st.aliases) && other != name ==>
              AliasGet(AliasRemove(st, name).0, other) == AliasGet(st, other)
  {
    if Remove(st.aliases, name).Some? {
      RemoveCount(st.aliases, name);
      if UniqueNames(st.aliases) { RemoveLookup(st.aliases, name, other); }
    }
  }

  /** `shell_setenv`: the same contract on the 64-slot environment table. */
  lemma SetEnvResult(st: State, name: string, value: string, other: string)
    ensures SetEnv(st, name, value).1 == SysErr <==>
              FindIn(st.env, name) < 0 && Count(st.env) == |st.env|
    ensures SetEnv(st, name, value).1 == SysErr ==> SetEnv(st, name, value).0 == st
    ensures SetEnv(st, name, value).1 != SysErr ==> SetEnv(st, name, value).1 == Ok
    ensures SetEnv(st, name, value).1 == Ok && |name| <= NameMax ==>
              GetEnv(SetEnv(st, name, value).0, name) == Some(Truncate(value, TextMax))
    ensures SetEnv(st, name, value).1 == Ok && other != name && other != Truncate(name, NameMax) ==>
              GetEnv(SetEnv(st, name, value).0, other) == GetEnv(st, other)
  {
    var v := Truncate(value, TextMax);
    UpsertFails(st.env, name, v);
    if Upsert(st.env, name, v).Some? {
      if |name| <= NameMax { UpsertLookup(st.env, name, v); }
      if other != name && other != Truncate(name, NameMax) { UpsertFrame(st.env, name, v, other); }
    }
  }

  /** Setting and unsetting keep a NUL-free environment NUL-free and the
      rest of the shell's invariant intact. */
  lemma SetEnvValid(st: State, name: string, value: string)
    requires ValidState(st) && Nul !in value
    ensures ValidState(SetEnv(st, name, value).0)
    ensures ValidState(UnsetEnv(st, name).0)
  {
    var v := Truncate(value, TextMax);
    if Upsert(st.env, name, v).Some? {
      UpsertValues(st.env, name, v);
    }
    if Remove(st.env, name).Some? {
      RemoveValues(st.env, name);
    }
  }

  /** `shell_unsetenv`: SYSERR exactly for an absent name; otherwise the
      name is gone from a table without duplicate names. */
  lemma UnsetEnvResult(st: State, name: string, other: string)
    ensures UnsetEnv(st, name).1 == SysErr <==> GetEnv(st, name) == None
    ensures UnsetEnv(st, name).1 == SysErr ==> UnsetEnv(st, name).0 == st
    ensures UnsetEnv(st, name).1 != SysErr ==> UnsetEnv(st, name).1 == Ok
    ensures UniqueNames(st.env) ==> GetEnv(UnsetEnv(st, name).0, name) == None
    ensures UniqueNames(st.env) && other != name ==>
              GetEnv(UnsetEnv(st, name).0, other) == GetEnv(st, other)
  {
    if Remove(st.env, name).Some? && UniqueNames(st.env) {
      RemoveLookup(st.env, name, other);
    }
  }

  // ---------------------------------------------------------------------
  // Jobs.

  /** `shell_job_create` takes the first slot that is Done or never used
      (so a Killed job's slot is never reused), numbers the job by its slot,
      and the new id finds exactly that job; SYSERR, with nothing changed,
      when no slot qualifies. */
  lemma JobCreateResult(st: State, pid: int, command: string, fg: bool)
    requires |st.jobs| == MaxJobs && JobIds(st.jobs)
    ensures JobCreate(st, pid, command, fg).1 == SysErr <==> forall j :: 0 <= j < MaxJobs ==> !Reusable(st.jobs[j])
    ensures JobCreate(st, pid, command, fg).1 == SysErr ==> JobCreate(st, pid, command, fg).0 == st
    ensures JobIds(JobCreate(st, pid, command, fg).0.jobs) && |JobCreate(st, pid, command, fg).0.jobs| == MaxJobs
    ensures forall j :: 0 <= j < MaxJobs && st.jobs[j].state == Killed && st.jobs[j].id != 0 ==>
              JobCreate(st, pid, command, fg).0.jobs[j] == st.jobs[j]
    ensures JobCreate(st, pid, command, fg).1 != SysErr ==>
              var (st', id) := JobCreate(st, pid, command, fg);
              1 <= id <= MaxJobs && st'.jobCount == st.jobCount + 1 &&
              JobWithId(st'.jobs, id) == id - 1 &&
              st'.jobs[id - 1] == Job(id, pid, pid, Running, Truncate(command, TextMax), fg) &&
              forall j :: 0 <= j < id - 1 ==> !Reusable(st.jobs[j]) && st'.jobs[j] == st.jobs[j]
  {
    var i := FreeJob(st.jobs);
    if i >= 0 {
      var js := JobCreate(st, pid, command, fg).0.jobs;
      assert forall j :: 0 <= j < i ==> js[j].id != i + 1;
    }
  }

  /** `shell_job_update` changes the state of the first job with that id
      and nothing else; an unknown id changes nothing. */
  lemma JobUpdateResult(st: State, id: int, s: JobState)
    requires JobIds(st.jobs)
    ensures JobIds(JobUpdate(st, id, s).jobs) && |JobUpdate(st, id, s).jobs| == |st.jobs|
    ensures JobWithId(st.jobs, id) < 0 ==> JobUpdate(st, id, s) == st
    ensures JobWithId(st.jobs, id) >= 0 ==>
              var i := JobWithId(st.jobs, id);
              JobWithId(JobUpdate(st, id, s).jobs, id) == i &&
              JobUpdate(st, id, s).jobs[i] == st.jobs[i].(state := s) &&
              forall j :: 0 <= j < |st.jobs| && j != i ==> JobUpdate(st, id, s).jobs[j] == st.jobs[j]
  {
    var i := JobWithId(st.jobs, id);
    if i >= 0 {
      var js := JobUpdate(st, id, s).jobs;
      assert forall j :: 0 <= j < |js| ==> js[j].id == st.jobs[j].id;
    }
  }

  /** `shell_bg` resumes only a stopped job, in the background; a job in any
      other state is left as it is.  An unknown pid is SYSERR. */
  lemma BgTransition(st: State, pid: int)
    requires JobIds(st.jobs)
    ensures JobWithPid(st.jobs, pid) < 0 <==> ShellBg(st, pid).1 == SysErr
    ensures JobWithPid(st.jobs, pid) < 0 ==> ShellBg(st, pid).0 == st
    ensures JobWithPid(st.jobs, pid) >= 0 ==>
              var i := JobWithPid(st.jobs, pid);
              var was := st.jobs[i];
              var now := ShellBg(st, pid).0.jobs[i];
              ShellBg(st, pid).1 == Ok && now.id == was.id && now.pid == was.pid &&
              now.state == (if was.state == Stopped then Running else was.state) &&
              now.foreground == (if was.state == Stopped then false else was.foreground) &&
              forall j :: 0 <= j < |st.jobs| && j != i ==> ShellBg(st, pid).0.jobs[j] == st.jobs[j]
    ensures JobIds(ShellBg(st, pid).0.jobs) && |ShellBg(st, pid).0.jobs| == |st.jobs|
  {
  }

  /** `shell_fg` makes the job a running foreground job from any state. */
  lemma FgTransition(st: State, pid: int)
    requires JobIds(st.jobs)
    ensures JobWithPid(st.jobs, pid) < 0 <==> ShellFg(st, pid).1 == SysErr
    ensures JobWithPid(st.jobs, pid) < 0 ==> ShellFg(st, pid).0 == st
    ensures JobWithPid(st.jobs, pid) >= 0 ==>
              var i := JobWithPid(st.jobs, pid);
              ShellFg(st, pid).1 == Ok &&
              ShellFg(st, pid).0.jobs[i].state == Running && ShellFg(st, pid).0.jobs[i].foreground &&
              ShellFg(st, pid).0.jobs[i].id == st.jobs[i].id &&
              forall j :: 0 <= j < |st.jobs| && j != i ==> ShellFg(st, pid).0.jobs[j] == st.jobs[j]
    ensures JobIds(ShellFg(st, pid).0.jobs) && |ShellFg(st, pid).0.jobs| == |st.jobs|
  {
  }

  /** Right after `shell_init`, `fg` with no operand looks for job 0, finds
      the unused slot 0 (its id is 0) and succeeds instead of reporting "no
      such job"; slot 0 becomes a running foreground job. */
  lemma FgWithNoJobs(env: seq<Slot<string>>, pid: int)
    requires |env| == MaxEnv && NulFreeValues(env)
    ensures CmdFg(Init(env, pid), ["fg"]).1 == ShellOk
    ensures CmdFg(Init(env, pid), ["fg"]).0.jobs[0] == NoJob.(foreground := true)
  {
    InitState(env, pid);
    var st := Init(env, pid);
    assert JobWithId(st.jobs, 0) == 0;
    assert JobWithPid(st.jobs, 0) == 0;
  }

  // ---------------------------------------------------------------------
  // Builtins.

  /** `exit [n]` stops the shell with status `atoi(n)` (0 without an
      operand); `exit` of a printed number exits with that number. */
  lemma ExitStatus(st: State, argv: seq<string>, n: int)
    ensures !CmdExit(st, argv).0.running
    ensures CmdExit(st, argv).0.lastExit == CmdExit(st, argv).1
    ensures |argv| <= 1 ==> CmdExit(st, argv).1 == ShellOk
    ensures CmdExit(st, ["exit", IntToString(n)]).1 == n
  {
    AtoiIntToString(n);
  }

  /** `cd [dir]` sets the directory to `dir`, or to HOME, or to "/", cut to
      255 characters, records it as PWD when the environment has room, and
      always succeeds. */
  lemma CdResult(st: State, argv: seq<string>)
    ensures CmdCd(st, argv).1 == ShellOk
    ensures CmdCd(st, argv).0.cwd ==
              Truncate(if |argv| >= 2 then argv[1] else if GetEnv(st, "HOME").Some? then GetEnv(st, "HOME").value else "/",
                       ShellMaxPath - 1)
    ensures SetEnv(st.(cwd := CmdCd(st, argv).0.cwd), "PWD", CmdCd(st, argv).0.cwd).1 == Ok ==>
              GetEnv(CmdCd(st, argv).0, "PWD") == Some(CmdCd(st, argv).0.cwd)
  {
    var cwd := CmdCd(st, argv).0.cwd;
    SetEnvResult(st.(cwd := cwd), "PWD", cwd, "");
  }

  /** `set name value` returns `shell_setenv`'s OK, which is 1: a
      successful `set` reports failure to `$?`.  Without a value it only
      lists, and succeeds. */
  lemma SetStatus(st: State, name: string, value: string)
    requires FindIn(st.env, name) >= 0 || Count(st.env) < |st.env|
    ensures CmdSet(st, ["set", name, value]).1 == Ok == 1
    ensures |name| <= NameMax ==> GetEnv(CmdSet(st, ["set", name, value]).0, name) == Some(Truncate(value, TextMax))
    ensures CmdSet(st, ["set", name]) == (st, ShellOk)
  {
    SetEnvResult(st, name, value, "");
  }

  /** `unset` without a name fails with 1; of an absent name with SYSERR;
      otherwise it removes the name. */
  lemma UnsetStatus(st: State, name: string)
    requires UniqueNames(st.env)
    ensures CmdUnset(st, ["unset"]).1 == ShellError
    ensures GetEnv(st, name) == None ==> CmdUnset(st, ["unset", name]) == (st, SysErr)
    ensures GetEnv(st, name) != None ==>
              CmdUnset(st, ["unset", name]).1 == Ok && GetEnv(CmdUnset(st, ["unset", name]).0, name) == None
  {
    UnsetEnvResult(st, name, "");
  }

  /** `export name=value` splits at the first `=` and sets the variable;
      it reports success whatever happens. */
  lemma ExportSplits(st: State, name: string, value: string)
    requires '=' !in name && |name| <= NameMax
    requires FindIn(st.env, name) >= 0 || Count(st.env) < |st.env|
    ensures CmdExport(st, ["export", name + "=" + value]).1 == ShellOk
    ensures GetEnv(CmdExport(st, ["export", name + "=" + value]).0, name) == Some(Truncate(value, TextMax))
    ensures CmdExport(st, ["export", name]) == (st, ShellOk)
  {
    var w := name + "=" + value;
    assert w[..|name|] == name && w[|name| + 1..] == value && w[|name|] == '=';
    IndexOfFirst(w, '=', |name|);
    SetEnvResult(st, name, value, "");
  }

  /** `alias name value` returns `shell_alias_set`'s OK (1) and `unalias`
      without a name fails with 1. */
  lemma AliasStatus(st: State, name: string, value: string)
    requires st.aliasCount == Count(st.aliases)
    requires FindIn(st.aliases, name) >= 0 || Count(st.aliases) < |st.aliases|
    ensures CmdAlias(st, ["alias", name, value]).1 == Ok
    ensures |name| <= NameMax ==> AliasGet(CmdAlias(st, ["alias", name, value]).0, name) == Some(Truncate(value, TextMax))
    ensures CmdUnalias(st, ["unalias"]).1 == ShellError
    ensures AliasGet(st, name) == None ==> CmdUnalias(st, ["unalias", name]) == (st, SysErr)
  {
    AliasSetResult(st, name, value, "");
    AliasRemoveResult(st, name, "");
  }

  /** `history -c` empties the history. */
  lemma HistoryDashC(st: State)
    requires RingShape(st)
    ensures RingShape(CmdHistory(st, ["history", "-c"]).0)
    ensures Remembered(CmdHistory(st, ["history", "-c"]).0) == []
    ensures CmdHistory(st, ["history"]) == (st, ShellOk)
  {
  }

  // ---------------------------------------------------------------------
  // Lines made of plain words.

  /** A word of letters, digits and `_`: nothing in it is expanded, quoted
      or split. */
  predicate Word(w: string)
  {
    w != [] && forall k :: 0 <= k < |w| ==> IsNameChar(w[k])
  }

  /** A character other than the blank that no word holds is not in the
      joined line. */
  lemma {:induction false} JoinChar(ws: seq<string>, c: char)
    requires c != ' ' && forall w :: w in ws ==> c !in w
    ensures c !in Join(ws)
  {
    if |ws| > 1 {
      assert forall w :: w in ws[1..] ==> w in ws;
      JoinChar(ws[1..], c);
    }
  }

  /** Plain words joined by blanks hold no character that is neither a
      name character nor a blank. */
  lemma WordsLack(ws: seq<string>, c: char)
    requires !IsNameChar(c) && c != ' '
    requires forall w :: w in ws ==> Word(w)
    ensures c !in Join(ws)
  {
    forall w | w in ws ensures c !in w {
      assert Word(w);
    }
    JoinChar(ws, c);
  }

  /** Splitting words joined by single blanks gives the words back. */
  lemma {:induction false} FieldsJoin(ws: seq<string>)
    requires forall w :: w in ws ==> w != [] && forall k :: 0 <= k < |w| ==> !IsBlank(w[k])
    ensures Fields(Join(ws)) == ws
  {
    if |ws| == 1 {
      SplitRun(ws[0], 0, |ws[0]|, []);
      assert ws[0][0..|ws[0]|] == ws[0] && [] + ws[0] == ws[0];
      assert Join(ws) == ws[0] && ws == [ws[0]];
    } else if |ws| > 1 {
      assert ws[0] in ws;
      assert forall v :: v in ws[1..] ==> v in ws;
      FieldsJoin(ws[1..]);
      FieldsCons(ws[0], Join(ws[1..]));
    }
  }

  /** A word without blanks, then a blank, splits off as the first field. */
  lemma FieldsCons(w: string, rest: string)
    requires w != [] && forall k :: 0 <= k < |w| ==> !IsBlank(w[k])
    ensures Fields(w + " " + rest) == [w] + Fields(rest)
  {
    var s := w + " " + rest;
    SplitRun(s, 0, |w|, []);
    assert s[0..|w|] == w && s[|w|] == ' ' && [] + w == w;
    assert SplitFrom(s, |w|, w) == [w] + SplitFrom(s, |w| + 1, []);
    SplitShift(w + " ", rest, 0, []);
    assert (w + " ") + rest == s && |w + " "| == |w| + 1;
  }

  /** A line of at most 255 characters and 31 plain words is expanded to
      itself and split back into its words. */
  lemma PlainLine(st: State, ws: seq<string>)
    requires 1 <= |ws| < ShellMaxArgs && |Join(ws)| <= TextMax
    requires forall w :: w in ws ==> Word(w)
    ensures !Empty(Join(ws))
    ensures Words(st, Join(ws)) == ws
  {
    var line := Join(ws);
    WordsLack(ws, '$');
    WordsLack(ws, '~');
    WordsLack(ws, '"');
    WordsLack(ws, '\'');
    WordsLack(ws, '\\');
    WordsLack(ws, '#');
    assert Plain(line) by {
      forall k | 0 <= k < |line| ensures !IsQuote(line[k]) && line[k] != '\\' && line[k] != '#' {
        assert line[k] in line;
      }
    }
    PlainExpansion(line, st.env, st.lastExit, st.pid, ShellMaxLine);
    forall w | w in ws ensures w != [] && forall k :: 0 <= k < |w| ==> !IsBlank(w[k]) {
      assert Word(w);
    }
    FieldsJoin(ws);
    PlainTokens(line, ShellMaxArgs);
    assert ws[0] in ws && Word(ws[0]);
    assert line[0] == ws[0][0];
    SkipBlanksBounds(line, 0);
  }

  // ---------------------------------------------------------------------
  // `shell_execute`.

  /** A line of blanks, or whose first non-blank is `#`, returns 0 and
      changes nothing (no history entry either). */
  lemma ExecuteIgnores(st: State, blanks: string, rest: string, fuel: nat)
    requires RingShape(st)
    requires forall k :: 0 <= k < |blanks| ==> IsBlank(blanks[k])
    ensures Execute(st, blanks, fuel) == (st, ShellOk)
    ensures Execute(st, blanks + "#" + rest, fuel) == (st, ShellOk)
  {
    SkipBlanksBounds(blanks, 0);
    var line := blanks + "#" + rest;
    SkipBlanksBounds(line, 0);
    assert line[|blanks|] == '#';
    assert forall k :: 0 <= k < |blanks| ==> line[k] == blanks[k];
  }

  /** Whatever a found command returns is also left in `last_exit`; a
      first word that names no command gives 127, in both. */
  lemma ExecuteStatus(st: State, line: string, fuel: nat)
    requires RingShape(st) && !Empty(line)
    ensures Words(Recorded(st, line), line) == [] ==> Execute(st, line, fuel) == (Recorded(st, line), ShellOk)
    ensures Words(Recorded(st, line), line) != [] ==>
              Execute(st, line, fuel).0.lastExit == Execute(st, line, fuel).1
    ensures Words(Recorded(st, line), line) != [] &&
            HandlerOf(Recorded(st, line).commands, Words(Recorded(st, line), line)[0]) == None ==>
              Execute(st, line, fuel) == (Recorded(st, line).(lastExit := ShellNotFound), ShellNotFound)
  {
  }

  /** Recording a line touches only the history. */
  lemma RecordedFrame(st: State, line: string)
    requires RingShape(st)
    ensures RingShape(Recorded(st, line))
    ensures Recorded(st, line) == st.(history := Recorded(st, line).history,
                                      historyCount := Recorded(st, line).historyCount,
                                      historyIndex := Recorded(st, line).historyIndex)
    ensures st.interactive ==> Remembered(Recorded(st, line)) == Remember(Remembered(st), line)
    ensures !st.interactive ==> Recorded(st, line) == st
  {
    HistoryAddRemembers(st, line);
  }

  /** The line `exit n` stops the shell with status `atoi(n)`. */
  lemma ExecuteExit(st: State, n: string, fuel: nat)
    requires RingShape(st) && HandlerOf(st.commands, "exit") == Some(Exit)
    requires Word(n) && |n| <= TextMax - 5
    ensures !Execute(st, Join(["exit", n]), fuel).0.running
    ensures Execute(st, Join(["exit", n]), fuel).1 == Atoi(n)
    ensures Execute(st, Join(["exit", n]), fuel).0.lastExit == Atoi(n)
  {
    var line := Join(["exit", n]);
    var st1 := Recorded(st, line);
    RecordedFrame(st, line);
    assert forall w :: w in ["exit", n] ==> Word(w);
    PlainLine(st1, ["exit", n]);
    assert Execute(st, line, fuel) == RunWords(st1, ["exit", n], fuel);
    assert Dispatch(st1, Exit, ["exit", n], fuel) == CmdExit(st1, ["exit", n]);
  }

  /** A freshly initialised shell dispatches `exit` to `cmd_exit`. */
  lemma InitExits(env: seq<Slot<string>>, pid: int)
    requires |env| == MaxEnv && NulFreeValues(env)
    ensures RingShape(Init(env, pid)) && HandlerOf(Init(env, pid).commands, "exit") == Some(Exit)
  {
    InitState(env, pid);
    ExitName();
  }

  /** From a freshly initialised shell, the line `exit 3` (any decimal
      number) stops it with that status. */
  lemma ExitAfterInit(env: seq<Slot<string>>, pid: int, n: nat, fuel: nat)
    requires |env| == MaxEnv && NulFreeValues(env) && |NatToString(n)| <= 200
    ensures !Execute(Init(env, pid), "exit " + NatToString(n), fuel).0.running
    ensures Execute(Init(env, pid), "exit " + NatToString(n), fuel).1 == n
  {
    var st := Init(env, pid);
    InitExits(env, pid);
    var d := NatToString(n);
    NatToStringDigits(n);
    assert Word(d) by {
      forall k | 0 <= k < |d| ensures IsNameChar(d[k]) { assert IsDigitIn(d[k], 10); }
    }
    assert Join(["exit", d]) == "exit " + d;
    ExecuteExit(st, d, fuel);
    AtoiIntToString(n);
  }

  /** The line `set name value` stores the variable and leaves 1 (`OK`) in
      `$?` when the environment has room. */
  lemma ExecuteSet(st: State, name: string, value: string, fuel: nat)
    requires RingShape(st) && HandlerOf(st.commands, "set") == Some(Set)
    requires Word(name) && Word(value) && |name| + |value| <= TextMax - 5 && |name| <= NameMax
    requires FindIn(st.env, name) >= 0 || Count(st.env) < |st.env|
    ensures Execute(st, Join(["set", name, value]), fuel).1 == Ok
    ensures Execute(st, Join(["set", name, value]), fuel).0.lastExit == 1
    ensures GetEnv(Execute(st, Join(["set", name, value]), fuel).0, name) == Some(value)
  {
    var line := Join(["set", name, value]);
    assert ["set", name, value][1..] == [name, value] && [name, value][1..] == [value];
    assert Join([name, value]) == name + " " + value;
    assert line == "set" + " " + (name + " " + value);
    var st1 := Recorded(st, line);
    RecordedFrame(st, line);
    assert forall w :: w in ["set", name, value] ==> Word(w);
    PlainLine(st1, ["set", name, value]);
    assert Execute(st, line, fuel) == RunWords(st1, ["set", name, value], fuel);
    assert Dispatch(st1, Set, ["set", name, value], fuel) == CmdSet(st1, ["set", name, value]);
    SetStatus(st1, name, value);
  }

  /** A single word that names no command gives 127. */
  lemma ExecuteUnknown(st: State, w: string, fuel: nat)
    requires RingShape(st) && Word(w) && |w| <= TextMax && HandlerOf(st.commands, w) == None
    ensures Execute(st, w, fuel).1 == ShellNotFound
    ensures Execute(st, w, fuel).0.lastExit == ShellNotFound
  {
    RecordedFrame(st, w);
    assert Join([w]) == w;
    PlainLine(Recorded(st, w), [w]);
  }

  // ---------------------------------------------------------------------
  // The shell's invariant.

  lemma TruncateNoNul(s: string, n: nat)
    requires Nul !in s
    ensures Nul !in Truncate(s, n)
  {
    var r := Truncate(s, n);
    assert forall k :: 0 <= k < |r| ==> r[k] == s[k];
  }

  /** HOME, or "/", is a C string when the environment's values are. */
  lemma HomeNoNul(env: seq<Slot<string>>)
    requires NulFreeValues(env)
    ensures Nul !in Home(env)
  {
  }

  /** The words `shell_execute` dispatches on are C strings. */
  lemma WordsNoNul(st: State, line: string)
    requires Nul !in line && NulFreeValues(st.env)
    ensures forall w :: w in Words(st, line) ==> Nul !in w
  {
    var inp := Truncate(line, TextMax);
    TruncateNoNul(line, TextMax);
    ExpandFromNoNul(inp, 0, [], st.env, st.lastExit, st.pid, ShellMaxLine);
    TokensFromChars(Expansion(inp, st.env, st.lastExit, st.pid, ShellMaxLine), 0, ShellMaxArgs - 1, Nul);
  }

  lemma CdValid(st: State, argv: seq<string>)
    requires ValidState(st) && forall w :: w in argv ==> Nul !in w
    ensures ValidState(CmdCd(st, argv).0)
  {
    var dir := if |argv| < 2 then Home(st.env) else argv[1];
    if |argv| < 2 { HomeNoNul(st.env); } else { assert argv[1] in argv; }
    TruncateNoNul(dir, ShellMaxPath - 1);
    SetEnvValid(st.(cwd := Truncate(dir, ShellMaxPath - 1)), "PWD", Truncate(dir, ShellMaxPath - 1));
  }

  lemma EnvCommandsValid(st: State, argv: seq<string>)
    requires ValidState(st) && forall w :: w in argv ==> Nul !in w
    ensures ValidState(CmdSet(st, argv).0)
    ensures ValidState(CmdUnset(st, argv).0)
    ensures ValidState(CmdExport(st, argv).0)
  {
    if |argv| >= 3 { assert argv[2] in argv; SetEnvValid(st, argv[1], argv[2]); }
    if |argv| >= 2 {
      SetEnvValid(st, argv[1], "");
      var e := IndexOf(argv[1], '=');
      if e >= 0 {
        assert argv[1] in argv;
        var v := argv[1][e + 1..];
        assert forall k :: 0 <= k < |v| ==> v[k] == argv[1][e + 1 + k];
        SetEnvValid(st, argv[1][..e], v);
      }
    }
  }

  lemma AliasCommandsValid(st: State, argv: seq<string>)
    requires ValidState(st)
    ensures ValidState(CmdAlias(st, argv).0)
    ensures ValidState(CmdUnalias(st, argv).0)
  {
    if |argv| >= 3 {
      AliasSetResult(st, argv[1], argv[2], "");
      var v := Truncate(argv[2], TextMax);
      if Upsert(st.aliases, argv[1], v).Some? { UpsertValues(st.aliases, argv[1], v); }
    }
    if |argv| >= 2 {
      AliasRemoveResult(st, argv[1], "");
      if Remove(st.aliases, argv[1]).Some? { RemoveValues(st.aliases, argv[1]); }
    }
  }

  lemma JobCommandsValid(st: State, argv: seq<string>)
    requires ValidState(st)
    ensures ValidState(CmdFg(st, argv).0)
    ensures ValidState(CmdBg(st, argv).0)
  {
    var i := JobWithId(st.jobs, JobOperand(st, argv));
    if i >= 0 {
      FgTransition(st, st.jobs[i].pid);
      BgTransition(st, st.jobs[i].pid);
    }
  }

  /** Every builtin keeps the invariant when its words are C strings. */
  lemma DispatchValid(st: State, h: Handler, argv: seq<string>, fuel: nat)
    requires ValidState(st) && forall w :: w in argv ==> Nul !in w
    ensures ValidState(Dispatch(st, h, argv, fuel).0)
    decreases fuel, 0
  {
    match h {
      case Cd => CdValid(st, argv);
      case Set => EnvCommandsValid(st, argv);
      case Unset => EnvCommandsValid(st, argv);
      case Export => EnvCommandsValid(st, argv);
      case Alias => AliasCommandsValid(st, argv);
      case Unalias => AliasCommandsValid(st, argv);
      case Fg => JobCommandsValid(st, argv);
      case Bg => JobCommandsValid(st, argv);
      case Time =>
        if |argv| >= 2 && fuel > 0 {
          assert forall w :: w in argv[1..] ==> w in argv;
          JoinChar(argv[1..], Nul);
          ExecuteValid(st, Join(argv[1..]), fuel - 1);
        }
      case _ =>
    }
  }

  /** `shell_execute` keeps the invariant for every C-string line. */
  lemma ExecuteValid(st: State, line: string, fuel: nat)
    requires ValidState(st) && Nul !in line
    ensures ValidState(Execute(st, line, fuel).0)
    decreases fuel, 1
  {
    if !Empty(line) {
      var st1 := Recorded(st, line);
      RecordedFrame(st, line);
      var words := Words(st1, line);
      WordsNoNul(st1, line);
      if words != [] {
        var c := FindCommandIn(st1.commands, words[0]);
        if c >= 0 { DispatchValid(st1, st1.commands[c].handler, words, fuel); }
      }
    }
  }
}
