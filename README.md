# A command shell and a line-oriented script interpreter, modelled in Dafny

This project models the two logic files of a small operating-system shell.

**`shell.c`, the interactive shell.** It keeps its state in fixed-size tables:
- a registry of up to 128 builtin commands, looked up by first match;
- a 50-entry ring of history;
- 32 alias slots and 64 environment slots, both "update in place, else take
  the first free slot";
- 32 job slots with a small state machine driven by `bg` and `fg`.

A command line goes through `shell_execute`:
1. A blank or comment line is ignored.
2. An interactive shell records the line in the history.
3. The line is cut to 255 characters.
4. `shell_expand` substitutes `$?`, `$$`, `$name`, `${name}` and `~` into a
   256-byte buffer.
5. `shell_parse_line` splits the buffer in place into at most 31 words. It
   removes quotes and backslashes and writes NULs between the words.
6. The first word is looked up in the registry and its builtin runs. An
   unknown name gives 127.

The state-changing builtins are modelled: `exit`, `cd`, `set`, `unset`,
`export`, `alias`, `unalias`, `history -c`, `fg`, `bg` and `time`. So are the
pure builtins `test`/`[`, `true` and `false`.

**`script_interpreter.c`, the script interpreter.** A context holds:
- 128 variable slots, each holding a tagged value;
- 64 function slots;
- 64 label slots;
- a loop stack and a call stack of 256 entries each;
- the fields `line_num`, `running` and `exit_code`.

`script_execute` cuts a script at newlines and hands each non-empty piece,
in order, to `execute_line`. That function recognises, first match wins:
1. blank and comment lines;
2. a label before a `:`;
3. an assignment `name = value`;
4. the keywords `if`, `while`, `for`, `break`, `continue`, `return` and `goto`;
5. otherwise, an expression.

`script_eval_int` reads a decimal, octal or hexadecimal literal, or a
`$variable`, with an optional sign. `script_eval_bool` and `expr_match_glob`
(shell wildcards) complete the set.

**How each file is modelled.**
- **Mutable state is a class.** `Shell.Shell` and `Script.ScriptContext` keep
  the C tables as `array` fields and the scalars as plain fields. The one
  exception is the shell's command registry, a `seq<Command>` field that
  registration appends to.
- **Their methods work the arrays in place.** They use the same scanning
  loops as the C code.
- **Each method is proved against a pure specification function.**
  - The shell's are in `ShellSpec`, over a `State` value.
  - The interpreter's are in `ScriptSpec`, over a `Context` value.
  - Each method's `ensures` ties the new abstract state and its result to
    that function.
- **What the source promises is proved about the functions.** Those lemmas
  are in `ShellProps` and `ScriptProps`.
- **The smaller pieces:**
  - the line splitter is an array algorithm, `Lexer.ParseLine`, with its
    specification `Lexer.Tokens`;
  - the expander is `Expander.Expand`, with its specification
    `Expander.Expansion`;
  - the table scans shared by every table are in `Slots`;
  - C string helpers (`strncpy` truncation, `%d`, `atoi`, `strchr`) are in
    `CString`;
  - `cmd_test` is in `TestCmd`;
  - the glob matcher is in `Glob`.

**Conventions.**
- C strings are `seq<char>` without their NUL.
- A name stored with `strncpy(dst, name, 63)` is cut to 63 characters,
  explicitly (`CString.Truncate`).
- Registry handlers are a datatype naming the builtins.
- Integers are mathematical.
- `getpid()` is a parameter of the shell constructor.

## Model

| member | source | states |
|---|---|---|
| CString.Truncate | shell.c:166-167 | a `strncpy` into a buffer of `n + 1` keeps a prefix of the string: the whole string when it fits, exactly `n` characters otherwise |
| CString.SkipBlanks | shell.c:373-374 | the scan for the first non-blank never moves backwards nor past the end |
| CString.SkipBlanksBounds | shell.c:373-374 | every character skipped is a blank or tab and the character stopped at is not |
| CString.DigitRunIs | script_interpreter.c:420-423 | the digits a digit loop consumes are exactly the maximal run of digits of that base at its start |
| CString.NatToStringDigits | shell.c:297 | `%d` of a natural number prints at least one decimal digit, and the digits' value is the number |
| CString.AtoiIntToString | shell.c:757 | `atoi` reads back every number `%d` printed, negative ones included |
| CString.IntToStringInjective | shell.c:297 | two different numbers never print as the same text |
| CString.IntToStringNoNul | shell.c:297-300 | a printed number is a C string (no NUL character) |
| CString.CStrAt | shell.c:229-231 | the C string read from a buffer at an index holds no NUL |
| CString.StoredCStr | shell.c:278-280 | a NUL-free string followed by a NUL in the buffer is exactly the C string read there |
| CString.CStrAtStored | shell.c:362 | a buffer with a NUL at or after an index holds its C string there, terminated |
| CString.StoredFrame | shell.c:253 | writes at or beyond index `q` do not disturb a string stored (with its NUL) below `q` |
| CString.IndexOf | shell.c:839 | `strchr`: -1 exactly when the character is absent; otherwise the index of its first occurrence |
| CString.IndexOfFirst | script_interpreter.c:571 | the first occurrence of a character is where `strchr` stops |
| Slots.FindIn | script_interpreter.c:106-117 | the linear name scan: -1 exactly when no defined slot has the name; otherwise the first defined slot with it |
| Slots.FreeIn | script_interpreter.c:119-143 | the first-free-slot scan: -1 exactly when every slot is defined; otherwise the first undefined slot |
| Slots.CountBound | shell.c:499-521 | there are at most as many defined slots as slots, and a free slot exists exactly when not all are defined |
| Slots.CountUpdate | script_interpreter.c:232-252 | overwriting one slot changes the defined count by exactly the change in that slot's `defined` flag |
| Slots.FindInAgrees | script_interpreter.c:106-117 | the lookup of a name depends only on which slots hold that name |
| Slots.CountNone | script_interpreter.c:68-74 | a table with every slot cleared counts zero |
| Slots.UpsertLookup | shell.c:582-602 | after a successful update-or-insert of a name of at most 63 characters, looking it up yields the new value |
| Slots.UpsertFails | shell.c:592-601 | update-or-insert fails exactly when the name is absent and every slot is taken |
| Slots.UpsertFrame | shell.c:582-602 | update-or-insert leaves every other name's lookup alone, except the 63-character cut of a longer new name |
| Slots.FindInUpdate | script_interpreter.c:106-117 | overwriting a slot that neither held nor now holds a name leaves that name's lookup alone |
| Slots.UpsertCount | shell.c:499-521 | the defined count grows by one exactly when a new slot is taken, and stays the same on an in-place update |
| Slots.UpsertUnique | script_interpreter.c:119-143 | inserting names of at most 63 characters keeps the defined names unique |
| Slots.RemoveCount | shell.c:536-549 | a successful removal lowers the defined count by one |
| Slots.RemoveLookup | shell.c:604-615 | with unique names a removed name is no longer found, every other name keeps its lookup, and names stay unique |
| Slots.UpsertValues | shell.c:582-602 | update-or-insert stores the new value in one slot and changes no other value |
| Slots.RemoveValues | shell.c:604-615 | a removal changes no stored value |
| Slots.Find | shell.c:570-580 | the in-place scanning loop returns exactly the index of `FindIn` |
| Slots.Free | shell.c:592-601 | the in-place free-slot loop returns exactly the index of `FreeIn` |
| Slots.UpsertInPlace | shell.c:582-602 | the two loops on the array carry out update-or-insert: on success the array is the updated table, on failure unchanged, and it reports whether a new slot was taken |
| Slots.RemoveInPlace | shell.c:604-615 | the removal loop on the array: on success the array is the table with the slot cleared, on an absent name unchanged |
| Lexer.TokensFromBound | shell.c:235 | the outer loop produces at most as many words as it has room for |
| Lexer.StartBound | shell.c:235-248 | skipping blanks and starting a word stays within the word budget |
| Lexer.WordFromBound | shell.c:250-280 | finishing the current word yields at least that word and stays within the budget |
| Lexer.TokensBound | shell.c:235 | `shell_parse_line` returns at most `max_args - 1` words |
| Lexer.TokensFromChars | shell.c:250-276 | every word is built from characters of the line (so a NUL-free line yields NUL-free words) |
| Lexer.StartChars | shell.c:236-248 | the same, for a word started after blanks |
| Lexer.WordFromChars | shell.c:250-276 | the same, for the word in progress |
| Lexer.TokensFromPrefix | shell.c:235 | the word limit only cuts the list: a smaller limit yields a prefix of a larger limit's words |
| Lexer.StartPrefix | shell.c:235-248 | the same, after blanks |
| Lexer.WordFromPrefix | shell.c:250-280 | the same, inside a word |
| Lexer.TokensPrefix | shell.c:235 | words beyond the last allowed one are dropped, the others are unchanged |
| Lexer.PlainTokensFrom | shell.c:235-281 | on text without quotes, backslashes or `#`, and with room for every field, the splitter yields exactly the blank-separated fields |
| Lexer.SplitEmpty | shell.c:236-242 | a text with no fields left is all blanks |
| Lexer.SplitNonEmpty | shell.c:271-273 | a field in progress is always emitted |
| Lexer.PlainStart | shell.c:236-248 | the plain-text agreement, after blanks |
| Lexer.PlainWord | shell.c:250-280 | the plain-text agreement, inside a word |
| Lexer.PlainTokens | shell.c:229-285 | a plain line with fewer fields than the limit splits into exactly its blank-separated fields |
| Lexer.SplitRun | shell.c:275 | a run of non-blank characters joins the field in progress |
| Lexer.SplitShift | shell.c:235 | splitting does not look behind the position it stands at |
| Lexer.QuotedSection | shell.c:258-269 | a quoted section is kept verbatim without its quotes, blanks included |
| Lexer.InsideQuotes | shell.c:264-268 | inside quotes, everything up to the matching quote is kept and the closing quote removed |
| Lexer.UnclosedQuote | shell.c:250-271 | a quote that is never closed runs to the end of the line: the rest, blanks included, ends the last word, without the quote |
| Lexer.QuoteExamples | shell.c:250-276 | `a "b c" d` splits into `a`, `b c` and `d`; `a "b c` into `a` and `b c` |
| Lexer.Escape | shell.c:251-256 | a backslash before another character is removed and that character kept, whatever it is, inside quotes too |
| Lexer.Comment | shell.c:244-246 | a `#` where a word would start ends the line |
| Lexer.RestAt | shell.c:250 | reading the rewritten buffer finds the NUL exactly at the end of the remaining text |
| Lexer.RestAdvance | shell.c:275 | stepping over a kept character advances through both the buffer and the text |
| Lexer.DeleteAt | shell.c:253 | the `memmove` deletes one character: everything before stays, the rest of the C string moves one place left |
| Lexer.ScanWord | shell.c:250-276 | the inner loop leaves the word's characters in place at its start and stops at a blank outside quotes or at the end; the word and what follows are what the specification produces |
| Lexer.ScanChar | shell.c:251-275 | one turn of the inner loop keeps the scan invariant and either advances or stops at an unquoted blank |
| Lexer.EndWord | shell.c:278-280 | ending a word writes a NUL in place of its terminating blank and steps past it; earlier characters are untouched |
| Lexer.NextWord | shell.c:236-280 | one turn of the outer loop: either no word is left, or a word is stored NUL-terminated in the buffer and it heads the remaining words |
| Lexer.ParseLine | shell.c:229-285 | `argc` is the number of words of the C string in the buffer, at most `max_args - 1`; each `argv[k]` points at the `k`-th word, NUL-terminated; `argv[argc]` is NULL; later entries are untouched |
| Expander.Put | shell.c:299-302 | a substitution is appended whole when the result stays below `size - 1` characters, and dropped whole otherwise |
| Expander.NameScan | shell.c:317-336 | the variable name scan stays within the input |
| Expander.BraceNameBounds | shell.c:326-330 | the `${...}` name scan stays within the input |
| Expander.PlainNameBounds | shell.c:326-334 | the `$name` scan stays within the input |
| Expander.ExpandStep | shell.c:292-358 | one pass consumes at least one input character; output only grows, and never past `size - 1` characters |
| Expander.ExpandFromBound | shell.c:291 | the output grows from what was produced and never exceeds `size - 1` characters |
| Expander.ExpansionBound | shell.c:291-362 | `shell_expand`'s output fits the buffer with its NUL |
| Expander.ExpandFromNoNul | shell.c:291-362 | a NUL-free input and NUL-free variable values give a NUL-free output |
| Expander.ExpandStepNoNul | shell.c:292-358 | one pass adds no NUL |
| Expander.ExpandFromPlain | shell.c:357-358 | text without `$` or `~` is copied unchanged, cut to `size - 1` characters |
| Expander.PlainExpansion | shell.c:287-364 | a short input without `$` or `~` expands to itself (no alias substitution) |
| Expander.StatusExpansion | shell.c:295-304 | `$?` becomes the last exit status in decimal, and `atoi` reads it back |
| Expander.PidExpansion | shell.c:305-315 | `$$` becomes the process id in decimal |
| Expander.PlainNameIs | shell.c:326-334 | `$name` takes the longest run of letters, digits and `_`, at most 63 of them |
| Expander.BraceNameIs | shell.c:321-330 | `${name}` takes everything up to the `}` and consumes the brace |
| Expander.VariableExpansion | shell.c:317-345 | `$name` alone becomes the variable's value when set and short enough, and nothing when unset |
| Expander.BracedName | shell.c:321-336 | the name of `${name}` is `name`, and scanning resumes after the brace |
| Expander.BracedExpansion | shell.c:317-345 | `${name}` alone becomes the variable's value when set and short enough, and nothing when unset |
| Expander.TildeExpansion | shell.c:346-356 | a leading `~` becomes `HOME`, or `/` when it is unset |
| Expander.CopyAt | shell.c:300 | `strcpy` into the output buffer writes the string and its NUL and leaves everything before alone |
| Expander.PutAt | shell.c:299-302 | the bounded copy on the buffer produces exactly `Put`'s output |
| Expander.Expand | shell.c:287-364 | the buffer ends up holding the specification's expansion as a NUL-terminated string |
| Expander.ExpandOne | shell.c:292-359 | one turn of the loop on the buffer does what one pass of the specification does |
| Expander.ExpandDollar | shell.c:292-345 | the `$` branch on the buffer does what the specification does |
| Expander.ScanName | shell.c:317-336 | the name loop returns the specification's name and resume position |
| TestCmd.BoolStatus | shell.c:1064 | a decision becomes `SHELL_OK` (0) or `SHELL_ERROR` (1) |
| TestCmd.TestStatus | shell.c:1037-1083 | `cmd_test` only ever returns 0 or 1 |
| TestCmd.BracketForm | shell.c:1042-1047 | `[ ... ]` behaves as `test ...` |
| TestCmd.UnclosedBracket | shell.c:1042-1047 | `[` without a closing `]` also behaves as `test` |
| TestCmd.StringEquality | shell.c:1063-1066 | `=` and `==` succeed exactly for equal strings, `!=` exactly for different ones |
| TestCmd.NumericOperands | shell.c:1067-1079 | `-eq` to `-ge` decide by the `atoi` values of the operands |
| TestCmd.NumericComparison | shell.c:1067-1079 | on printed numbers the numeric operators compare the numbers themselves |
| TestCmd.LengthTests | shell.c:1050-1060 | `-n` and `-z` never agree, and a single operand is tested like `-n` |
| TestCmd.Failures | shell.c:1038-1039 | `test` with no operand, `[` alone and an unknown operator give 1 |
| Glob.EmptyMatch | script_interpreter.c:761-763 | only a pattern of stars matches the empty string |
| Glob.StarsMatch | script_interpreter.c:738-741 | a non-empty pattern of stars matches every string |
| Glob.MatchGlob | script_interpreter.c:730-764 | the recursive matcher returns true exactly when the string is in the pattern's language (`*` any string, `?` one character, others themselves) |
| Glob.MatchRegex | script_interpreter.c:766-768 | `expr_match_regex` is the same matcher |
| Glob.LiteralMatch | script_interpreter.c:753-758 | a pattern without wildcards matches exactly itself |
| Glob.QuestionMarks | script_interpreter.c:749-752 | a pattern of `?` matches exactly the strings of its length |
| Glob.ConcatMatch | script_interpreter.c:735-763 | matches compose: pattern pieces that match string pieces match their concatenation |
| Glob.Examples | script_interpreter.c:730-764 | `a*c` matches `abc` and `ac`, `a?c` matches `abc` but not `ac`, `*` matches the empty string |
| ShellSpec.FindCommandIn | shell.c:175-185 | the first registered command with the name, or -1 exactly when none has it |
| ShellSpec.RegisterAll | shell.c:131-158 | registering a table changes only the command registry |
| ShellSpec.Entries | shell.c:160-173 | one registry slot per table entry |
| ShellSpec.Init | shell.c:104-128 | the initial state satisfies the history ring's shape invariant |
| ShellSpec.Filled | shell.c:108-126 | `memset` leaves `n` copies of the zero value |
| ShellSpec.RingSlot | shell.c:473-481 | the ring position of the `i`-th oldest entry is always a valid slot |
| ShellSpec.Remembered | shell.c:473-481 | exactly `history_count` commands are remembered |
| ShellSpec.Recent | shell.c:449-471 | the reference history never holds more than 50 commands |
| ShellSpec.FirstJob | shell.c:647-669 | the scan the job lookups share: the first slot satisfying the predicate, or -1 exactly when none does |
| ShellSpec.FreeJob | shell.c:620-621 | the slot `shell_job_create` takes is the first Done or never-used slot, or -1 exactly when none exists |
| ShellSpec.JobWithId | shell.c:647-657 | `shell_job_find`: the first slot with the id, or -1 exactly when none has it |
| ShellSpec.JobWithPid | shell.c:659-669 | `shell_job_find_by_pid`: the first slot with the pid, or -1 exactly when none has it |
| ShellProps.RegisterCapacity | shell.c:160-173 | registration fails with SYSERR exactly when 128 commands exist, and then changes nothing; otherwise it appends one slot with the (cut) name and description and returns OK |
| ShellProps.RegisterLookup | shell.c:160-185 | a newly registered short name is found with its handler unless an earlier slot has the name: duplicates coexist and the first wins |
| ShellProps.RegisterFrame | shell.c:160-185 | registration leaves every other name's lookup alone |
| ShellProps.RegisterAllAppends | shell.c:131-158 | registering a table of short entries with room to spare appends them verbatim |
| ShellProps.InitState | shell.c:104-158 | after `shell_init`: the invariant holds, the registry is the builtin table, cwd `/`, status 0, running and interactive, no history, no aliases, every job slot zero, the environment untouched |
| ShellProps.FirstNamed | shell.c:175-185 | the slot where a name is first found decides its handler |
| ShellProps.ExitName | shell.c:133 | `exit` dispatches to `cmd_exit` |
| ShellProps.QuitName | shell.c:134 | `quit` dispatches to `cmd_exit` too |
| ShellProps.SetName | shell.c:139 | `set` dispatches to `cmd_set` |
| ShellProps.BracketName | shell.c:155 | `[` dispatches to `cmd_test` |
| ShellProps.HistoryGetRemembered | shell.c:473-481 | `shell_history_get(i)` is NULL outside `[0, count)` and otherwise the `i`-th oldest remembered command |
| ShellProps.LastEntry | shell.c:455-458 | the most recent entry sits just before the cursor |
| ShellProps.AddGrowing | shell.c:460-470 | before the ring is full an add appends the (cut) command |
| ShellProps.AddFull | shell.c:460-470 | once the ring is full an add overwrites the oldest entry |
| ShellProps.HistoryAddRemembers | shell.c:449-471 | `shell_history_add` ignores an empty command and a repeat of the last one, otherwise appends the command and keeps the 50 most recent |
| ShellProps.HistoryClearForgets | shell.c:483-486 | after `shell_history_clear` nothing is remembered and `get(0)` is NULL |
| ShellProps.AddAll | shell.c:449-471 | any run of adds keeps the ring's shape invariant |
| ShellProps.RecentAppend | shell.c:467-470 | keeping the last 50 commands before or after an append gives the same history |
| ShellProps.HistoryOfCommands | shell.c:449-481 | from an empty ring, commands with no two neighbours equal leave exactly the last 50 of them remembered |
| ShellProps.RememberRecent | shell.c:449-471 | remembering a new short command is appending it to the unbounded list and keeping the last 50 |
| ShellProps.OldestSurvivor | shell.c:473-481 | after 50 + k such commands `get(0)` is the (k+1)-th added, `get(49)` the last, `get(50)` NULL |
| ShellProps.AliasSetResult | shell.c:499-521 | `shell_alias_set` fails with SYSERR exactly when the name is absent and all 32 slots are taken, and then changes nothing; on success it returns OK, the name is found with its cut value, every other name keeps its alias, and `alias_count` counts the defined slots |
| ShellProps.AliasRemoveResult | shell.c:536-549 | `shell_alias_remove` fails with SYSERR exactly for an absent name and then changes nothing; otherwise the name is gone, every other alias stays, and `alias_count` counts the defined slots |
| ShellProps.SetEnvResult | shell.c:582-602 | `shell_setenv` fails exactly when the name is absent and all 64 slots are taken, and then changes nothing; otherwise it returns OK, stores the value cut to 255, and leaves other names alone |
| ShellProps.SetEnvValid | shell.c:582-615 | setting and unsetting keep the environment NUL-free and the shell's invariant intact |
| ShellProps.UnsetEnvResult | shell.c:604-615 | `shell_unsetenv` gives SYSERR exactly for an absent name and then changes nothing; otherwise the name is gone and the others stay |
| ShellProps.JobCreateResult | shell.c:617-634 | `shell_job_create` fails with SYSERR, changing nothing, exactly when no slot is Done or unused; otherwise the first such slot becomes job `index + 1` with the pid as its group, Running, with the cut command; Killed slots are never reused; ids stay consistent |
| ShellProps.JobUpdateResult | shell.c:636-645 | `shell_job_update` changes only the state of the first job with the id; an unknown id changes nothing |
| ShellProps.BgTransition | shell.c:684-697 | `shell_bg` gives SYSERR for an unknown pid; it moves a Stopped job to Running in the background and leaves a job in any other state as it is |
| ShellProps.FgTransition | shell.c:699-715 | `shell_fg` gives SYSERR for an unknown pid; otherwise the job becomes a Running foreground job whatever its state |
| ShellProps.FgWithNoJobs | shell.c:945-962 | `fg` with no jobs finds the unused slot 0 (id 0 equals the job count) and succeeds |
| ShellProps.ExitStatus | shell.c:753-762 | `exit [n]` stops the shell with status `atoi(n)`, 0 without an operand, and keeps it as the last status |
| ShellProps.CdResult | shell.c:764-780 | `cd` always succeeds; the new cwd is the operand, or HOME (else `/`), cut to 255; `PWD` is set to it when the environment has room |
| ShellProps.SetStatus | shell.c:811-823 | `set name value` returns `shell_setenv`'s OK, which is 1, and stores the value; `set name` alone changes nothing and returns 0 |
| ShellProps.UnsetStatus | shell.c:825-832 | `unset` without a name gives 1; an absent name gives SYSERR and changes nothing; otherwise the name is removed |
| ShellProps.ExportSplits | shell.c:834-846 | `export name=value` splits at the first `=` and sets the variable; it returns 0 whatever happened |
| ShellProps.AliasStatus | shell.c:860-884 | `alias name value` returns OK (1) and defines the alias; `unalias` without a name gives 1, and of an absent name SYSERR |
| ShellProps.HistoryDashC | shell.c:886-894 | `history -c` empties the history; `history` alone changes nothing |
| ShellProps.JoinChar | shell.c:1015-1020 | joining words with blanks introduces no character other than the blank |
| ShellProps.WordsLack | shell.c:1015-1020 | joined plain words hold no quote, backslash, `#`, `$` or `~` |
| ShellProps.FieldsJoin | shell.c:1015-1020 | splitting words joined by single blanks gives the words back |
| ShellProps.FieldsCons | shell.c:271-273 | a blank-free word followed by a blank splits off as the first field |
| ShellProps.PlainLine | shell.c:383-389 | a line of at most 31 plain words and 255 characters expands to itself and splits back into its words |
| ShellProps.ExecuteIgnores | shell.c:373-377 | a blank line, or one whose first non-blank is `#`, returns 0 and changes nothing, with no history entry |
| ShellProps.ExecuteStatus | shell.c:379-404 | a line with no words returns 0; a found command's status is returned and left in `last_exit`; an unknown first word gives 127 in both |
| ShellProps.RecordedFrame | shell.c:379-381 | recording a line touches only the history, and does so only in an interactive shell |
| ShellProps.ExecuteExit | shell.c:367-405 | the line `exit n` stops the shell with status `atoi(n)` and leaves that status in `last_exit` |
| ShellProps.InitExits | shell.c:104-158 | a freshly initialised shell satisfies the ring invariant and dispatches `exit` to `cmd_exit` |
| ShellProps.ExitAfterInit | shell.c:367-405 | from a freshly initialised shell the line `exit 3` (any decimal number) stops it with that status |
| ShellProps.ExecuteSet | shell.c:811-823 | the line `set name value` stores the value and leaves 1 (OK) in `$?` when the environment has room |
| ShellProps.ExecuteUnknown | shell.c:401-404 | a single word that names no command returns 127 and leaves it in `last_exit` |
| ShellProps.HomeNoNul | shell.c:767-771 | HOME, or `/`, is a C string when the environment's values are |
| ShellProps.WordsNoNul | shell.c:383-389 | the words `shell_execute` dispatches on are C strings |
| ShellProps.CdValid | shell.c:764-780 | `cd` keeps the shell's invariant |
| ShellProps.EnvCommandsValid | shell.c:811-846 | `set`, `unset` and `export` keep the shell's invariant |
| ShellProps.AliasCommandsValid | shell.c:860-884 | `alias` and `unalias` keep the shell's invariant |
| ShellProps.JobCommandsValid | shell.c:945-982 | `fg` and `bg` keep the shell's invariant |
| ShellProps.DispatchValid | shell.c:396-398 | every builtin keeps the shell's invariant when its words are C strings |
| ShellProps.ExecuteValid | shell.c:367-405 | `shell_execute` keeps the shell's invariant for every C-string line |
| Shell.Shell.constructor | shell.c:104-128 | program start: the zeroed statics followed by `shell_init`, with an empty environment table |
| Shell.Shell.Init | shell.c:104-128 | `shell_init` on the arrays yields the specification's initial state and leaves the environment as it was |
| Shell.Shell.Zero | shell.c:108-126 | the assignments and `memset`s at the top of `shell_init` |
| Shell.Shell.Fill | shell.c:118-126 | `memset` of a table leaves every slot zero |
| Shell.Shell.BuiltinInit | shell.c:131-158 | the 26 registrations, in table order |
| Shell.Shell.RegisterTable | shell.c:131-158 | registering a table in order on the registry |
| Shell.Shell.RegisterCommand | shell.c:160-173 | `shell_register_command` on the registry, with the specification's new state and status |
| Shell.Shell.FindCommand | shell.c:175-185 | the lookup loop returns the first slot with the name, or -1 for NULL |
| Shell.Shell.HistoryAdd | shell.c:449-471 | the ring update in place, keeping the ring invariant |
| Shell.Shell.HistoryGet | shell.c:473-481 | the ring read |
| Shell.Shell.HistoryClear | shell.c:483-486 | the count and cursor reset |
| Shell.Shell.AliasSet | shell.c:499-521 | the two alias loops in place |
| Shell.Shell.AliasGet | shell.c:523-534 | the alias lookup loop |
| Shell.Shell.AliasRemove | shell.c:536-549 | the alias removal loop |
| Shell.Shell.GetEnv | shell.c:570-580 | the environment lookup loop |
| Shell.Shell.SetEnv | shell.c:582-602 | the two environment loops in place |
| Shell.Shell.UnsetEnv | shell.c:604-615 | the environment removal loop |
| Shell.Shell.JobCreate | shell.c:617-634 | the job slot search and fill in place |
| Shell.Shell.FreeJobSlot | shell.c:620-621 | the slot search returns the first Done or never-used slot |
| Shell.Shell.JobUpdate | shell.c:636-645 | the job state update in place |
| Shell.Shell.JobFind | shell.c:647-657 | the id scan returns the first slot with the id, or -1 |
| Shell.Shell.JobFindByPid | shell.c:659-669 | the pid scan returns the first slot with the pid, or -1 |
| Shell.Shell.JobBg | shell.c:684-697 | `shell_bg` on the job table |
| Shell.Shell.JobFg | shell.c:699-711 | `shell_fg` up to its state update |
| Shell.Shell.Exit | shell.c:443-446 | `shell_exit` stops the shell and keeps the status |
| Shell.Shell.CmdExit | shell.c:753-762 | `cmd_exit` on the shell's fields |
| Shell.Shell.CmdCd | shell.c:764-780 | `cmd_cd` on the shell's fields |
| Shell.Shell.CmdSet | shell.c:811-823 | `cmd_set` on the environment table |
| Shell.Shell.CmdUnset | shell.c:825-832 | `cmd_unset` on the environment table |
| Shell.Shell.CmdExport | shell.c:834-846 | `cmd_export` on the environment table |
| Shell.Shell.CmdAlias | shell.c:860-875 | `cmd_alias` on the alias table |
| Shell.Shell.CmdUnalias | shell.c:877-884 | `cmd_unalias` on the alias table |
| Shell.Shell.CmdHistory | shell.c:886-894 | `cmd_history` on the history ring |
| Shell.Shell.CmdFg | shell.c:945-962 | `cmd_fg` on the job table |
| Shell.Shell.CmdBg | shell.c:964-982 | `cmd_bg` on the job table |
| Shell.Shell.CmdTime | shell.c:1009-1027 | `cmd_time` joins its operands with blanks and executes the result |
| Shell.Shell.Dispatch | shell.c:396-398 | calling a builtin's handler |
| Shell.Shell.SkipLeading | shell.c:373-374 | the index of the first non-blank character |
| Shell.Shell.Split | shell.c:383-389 | cut, expand and parse: the words the specification dispatches on, each a C string |
| Shell.Shell.Execute | shell.c:367-405 | `shell_execute` on the whole shell state |
| Shell.Shell.RunWords | shell.c:390-404 | look the first word up and run it, or report 127 |
| ScriptSpec.ClearEach | script_interpreter.c:68-90 | a clearing loop applies the clear to every slot and keeps the table's size |
| ScriptSpec.SetVar | script_interpreter.c:145-187 | setting a variable changes only the variable table and its count |
| ScriptSpec.CreateLabel | script_interpreter.c:484-507 | recording a label changes only the label table and its count |
| ScriptSpec.TrimEnd | script_interpreter.c:595 | trimming trailing blanks never lengthens the text |
| ScriptSpec.Keyword | script_interpreter.c:618-652 | a keyword or expression line changes only the fields the frame allows |
| ScriptSpec.Statement | script_interpreter.c:587-652 | a statement changes only the fields the frame allows |
| ScriptSpec.Step | script_interpreter.c:559-653 | `execute_line` never touches the stacks or the function table |
| ScriptSpec.Labelled | script_interpreter.c:570-585 | a labelled line changes only the fields the frame allows |
| ScriptSpec.Run | script_interpreter.c:686-695 | a run of a frame-keeping step keeps the frame |
| ScriptSpec.RunLines | script_interpreter.c:686-695 | the loop of `script_execute` keeps the frame |
| ScriptSpec.Execute | script_interpreter.c:663-701 | `script_execute` keeps the frame |
| ScriptSpec.BindArgs | script_interpreter.c:342-345 | binding parameters keeps the frame |
| ScriptProps.ResetClears | script_interpreter.c:60-103 | after a reset every variable, function and label slot is undefined, every body NULL, the counts, `line_num`, `exit_code` and both stack pointers zero, `running` false, the descriptors 0, 1 and 2 |
| ScriptProps.ResetIs | script_interpreter.c:60-103 | a context with cleared tables, zero fields, the standard descriptors and the old stacks is the reset context and satisfies the invariant |
| ScriptProps.ResetValid | script_interpreter.c:60-103 | a reset context satisfies the invariant |
| ScriptProps.ResetIdempotent | script_interpreter.c:60-103 | resetting twice is resetting once |
| ScriptProps.BlankShape | script_interpreter.c:31-41 | the zeroed context has the tables' sizes |
| ScriptProps.SetVarRefused | script_interpreter.c:145-160 | a refused set (read-only, or absent with no free slot) returns SYSERR and changes nothing |
| ScriptProps.FullTable | script_interpreter.c:119-143 | with 128 variables defined, a new name fails with SYSERR |
| ScriptProps.SetVarStores | script_interpreter.c:145-230 | after a set, the name exists and get returns the same type and value (Int exact, String cut to 255); an UNDEFINED type gives SYSERR but leaves the name defined |
| ScriptProps.SetVarFrame | script_interpreter.c:145-187 | setting one variable leaves every other name's value and existence alone |
| ScriptProps.SetVarValid | script_interpreter.c:119-187 | `var_count` keeps counting the defined slots |
| ScriptProps.SetVarUnique | script_interpreter.c:119-143 | names of at most 63 characters keep defined names unique |
| ScriptProps.LongNameLost | script_interpreter.c:132 | a name of 64 or more characters is stored cut, so after a successful set it is still not found |
| ScriptProps.TypeChange | script_interpreter.c:162-181 | the type is overwritten: an Int variable can become a String |
| ScriptProps.ReadonlyRefusals | script_interpreter.c:158-160 | a read-only variable can be neither set nor unset |
| ScriptProps.UnsetVarRefused | script_interpreter.c:232-252 | unsetting an absent or read-only name returns SYSERR and changes nothing |
| ScriptProps.UnsetVarRemoves | script_interpreter.c:232-256 | otherwise the unset returns OK, the name no longer exists and `var_count` still counts the defined slots |
| ScriptProps.UnsetVarKeepsOthers | script_interpreter.c:232-252 | unsetting leaves every other variable's value alone |
| ScriptProps.DefineFuncResult | script_interpreter.c:272-318 | defining an existing function replaces its body and parameter count in the same slot; a new name with 64 defined fails with SYSERR; a success is found again; `func_count` counts the defined slots |
| ScriptProps.CreateLabelValid | script_interpreter.c:484-507 | `label_count` keeps counting the labels |
| ScriptProps.NameRunAll | script_interpreter.c:382-384 | a string of name characters is a `$` reference's whole name |
| ScriptProps.LeadingDigit | script_interpreter.c:411 | a printed positive number never starts with 0, so it is never read as octal |
| ScriptProps.LiteralOfNat | script_interpreter.c:397-423 | decimal digits without a leading zero are read as their decimal value |
| ScriptProps.EvalIntRoundTrip | script_interpreter.c:360-427 | `script_eval_int` reads back any number printed in decimal |
| ScriptProps.EvalIntNatural | script_interpreter.c:418-423 | a printed natural number reads back |
| ScriptProps.EvalIntNegative | script_interpreter.c:369-371 | a minus sign before a printed number negates it |
| ScriptProps.EvalIntDigits | script_interpreter.c:365-396 | text that starts with a digit has no blanks, sign or `$name` to skip, so it is read as the literal at its start |
| ScriptProps.EvalIntPrefixes | script_interpreter.c:397-417 | `017` is 15 (octal) and `0x1F` is 31 (hexadecimal) |
| ScriptProps.EvalIntDecimal | script_interpreter.c:366-374 | `08` is 8 (not octal) and ` -12` is -12 (blanks and a sign come first) |
| ScriptProps.EvalIntVariable | script_interpreter.c:377-394 | `$name` yields an Int variable's value, `-$name` its negation, and 0 for a variable of another type or none |
| ScriptProps.EvalBoolBlank | script_interpreter.c:447-452 | blank text is false |
| ScriptProps.EvalBoolKeywords | script_interpreter.c:455-463 | `true`, `TRUE` and `1` are true; `false`, `FALSE` and `0` are false |
| ScriptProps.EvalBoolNumber | script_interpreter.c:465-467 | any printed number is true exactly when it is non-zero |
| ScriptProps.EvalConditionNumber | script_interpreter.c:725-728 | `expr_eval_condition` is false for NULL and, on a printed number, true exactly when it is non-zero |
| ScriptProps.SkipOver | script_interpreter.c:563 | blanks up to a non-blank are skipped exactly |
| ScriptProps.StatementValid | script_interpreter.c:587-652 | a statement keeps the context's invariant |
| ScriptProps.LabelledValid | script_interpreter.c:570-585 | a labelled line keeps the invariant |
| ScriptProps.StepValid | script_interpreter.c:559-653 | every line keeps the context's invariant |
| ScriptProps.RunValid | script_interpreter.c:686-695 | every run keeps the invariant |
| ScriptProps.ExecuteValid | script_interpreter.c:663-701 | `script_execute` keeps the invariant, leaves `running` false, and returns the final `exit_code` |
| ScriptProps.CommentLine | script_interpreter.c:563-568 | blank and comment lines return OK and change nothing |
| ScriptProps.StepPlain | script_interpreter.c:571-572 | a line without `:` is a statement |
| ScriptProps.StepLabelled | script_interpreter.c:571-585 | a line whose first `:` follows text carries a label |
| ScriptProps.StatementKeyword | script_interpreter.c:588-590 | a statement without `=` is a keyword line |
| ScriptProps.LabelLine | script_interpreter.c:570-585 | `name:` records the label at `line_num`; `name: stmt` records it and runs the statement |
| ScriptProps.LabelRecorded | script_interpreter.c:484-507 | a recorded label is found at the line it was recorded at |
| ScriptProps.StatementAssign | script_interpreter.c:588-615 | `name = text` assigns to the trimmed name a number when the text starts with a digit or sign, the text otherwise |
| ScriptProps.AssignLine | script_interpreter.c:559-615 | as a whole line, `name = text` assigns; the name may contain blanks |
| ScriptProps.AssignmentFirst | script_interpreter.c:587-619 | the assignment check comes before the keywords: `if a = 1` sets `if a` to 1 |
| ScriptProps.ControlKeyword | script_interpreter.c:619-633 | `if`, `while` and `for` keyword lines return OK and change nothing |
| ScriptProps.ControlLine | script_interpreter.c:619-633 | the same, as whole lines |
| ScriptProps.ControlLines | script_interpreter.c:619-633 | `if`, `while` and `for` lines have no lasting effect |
| ScriptProps.BreakFails | script_interpreter.c:525-528 | `break` with an empty loop stack fails with SYSERR and changes nothing |
| ScriptProps.ContinueFails | script_interpreter.c:536-539 | `continue` with an empty loop stack fails with SYSERR and changes nothing |
| ScriptProps.IntToStringChars | script_interpreter.c:605 | a printed number starts with a digit or `-` and holds no `:` or `=` |
| ScriptProps.KeywordReturn | script_interpreter.c:638-642 | `return e` returns the value of `e` |
| ScriptProps.ReturnExprLine | script_interpreter.c:638-642 | the line `return e` stops the script with `e`'s value as exit code |
| ScriptProps.ReturnLine | script_interpreter.c:547-556 | `return n` stops the script with exit code `n` |
| ScriptProps.ReturnBare | script_interpreter.c:641 | a bare `return` stops the script with exit code 0 |
| ScriptProps.KeywordGoto | script_interpreter.c:643-646 | `goto L` is `script_goto_label(L)` |
| ScriptProps.GotoLine | script_interpreter.c:509-523 | `goto L` fails with SYSERR for an unknown label and otherwise only overwrites `line_num` |
| ScriptProps.RunKeeps | script_interpreter.c:686-695 | a property the step keeps on running contexts, and that counting a line keeps, holds at the end of every run |
| ScriptProps.RunAppend | script_interpreter.c:686-695 | lines run strictly in textual order: later lines run exactly when the earlier ones completed, from where they left off |
| ScriptProps.CompletesRunning | script_interpreter.c:686 | lines that complete leave the script running |
| ScriptProps.RunStops | script_interpreter.c:690-692 | a line that fails or stops the script ends the run: nothing after it executes |
| ScriptProps.LinesInOrder | script_interpreter.c:685-695 | textual order for `execute_line` |
| ScriptProps.BreakEndsRun | script_interpreter.c:634-635 | a `break` ends the run, since the loop stack is never pushed |
| ScriptProps.ReturnEndsRun | script_interpreter.c:638-642 | a `return` ends the run |
| ScriptProps.RunLast | script_interpreter.c:686-695 | after lines that complete, the next line runs on the context they left |
| ScriptProps.ReturnSetsExitCode | script_interpreter.c:547-556 | a `return` that is reached sets the exit code |
| ScriptProps.GotoDoesNotJump | script_interpreter.c:685-695 | `goto` only overwrites `line_num`; the next line in the text runs next |
| ScriptProps.RunFirst | script_interpreter.c:687-694 | a first line with status OK hands its context to the rest |
| ScriptProps.RunCons | script_interpreter.c:686-695 | one turn of the loop: count the line, run it, continue only after OK |
| ScriptProps.RunLinesCons | script_interpreter.c:686-695 | one turn of the loop for `execute_line` |
| ScriptProps.StatementLine | script_interpreter.c:587-646 | with the loop stack empty, a statement other than `goto` leaves `line_num` unchanged |
| ScriptProps.LabelledLine | script_interpreter.c:570-585 | recording a label leaves `line_num` unchanged, and so does a following statement other than `goto` |
| ScriptProps.StepLine | script_interpreter.c:559-653 | with the loop stack empty, only a `goto` line changes `line_num` |
| ScriptProps.RunCounts | script_interpreter.c:686-695 | a completed run of lines that each keep `line_num` advances it by exactly the number of lines |
| ScriptProps.LineCount | script_interpreter.c:686-687 | `line_num` counts the lines run: a completed run with no `goto` line advances it by the number of lines |
| ScriptProps.ScriptLineCount | script_interpreter.c:681-695 | a script whose lines all complete and contain no `goto` ends with `line_num` equal to its number of lines |
| ScriptProps.KeywordExitCode | script_interpreter.c:618-652 | only `return` changes the exit code, and it stops the script |
| ScriptProps.StatementExitCode | script_interpreter.c:587-652 | the same, for statements |
| ScriptProps.LabelledExitCode | script_interpreter.c:570-585 | the same, for labelled lines |
| ScriptProps.StepExitCode | script_interpreter.c:559-653 | the same, for every line |
| ScriptProps.RunExitCode | script_interpreter.c:686-695 | a run whose exit code changed stopped because a `return` ran |
| ScriptProps.ExecuteExitCode | script_interpreter.c:663-701 | `script_execute` returns the exit code it found unless a `return` ran |
| ScriptProps.SegmentsShape | script_interpreter.c:685-694 | `strtok` pieces are non-empty and free of newlines |
| ScriptProps.SegmentsRun | script_interpreter.c:685-694 | a newline-free run is collected whole |
| ScriptProps.SegmentsJoin | script_interpreter.c:685-694 | cutting at newlines undoes joining non-empty, newline-free lines |
| ScriptProps.NatToStringShort | script_interpreter.c:343 | a position below 1000 prints in at most three digits, so `arg<i>` fits its buffer |
| ScriptProps.ArgNameInjective | script_interpreter.c:343 | distinct parameter positions have distinct variable names |
| ScriptProps.BindArgsValid | script_interpreter.c:342-345 | binding parameters keeps the invariant |
| ScriptProps.BindArgsKeeps | script_interpreter.c:342-345 | binding parameters leaves every other variable alone |
| ScriptProps.BindArgsBinds | script_interpreter.c:342-345 | with room and no read-only variable, `arg<j>` holds the `j`-th argument as a String cut to 255 characters |
| ScriptProps.CallFuncErrors | script_interpreter.c:330-339 | `script_call_func` fails with SYSERR, changing nothing, for an unknown function or a full call stack |
| ScriptProps.CallFuncRestores | script_interpreter.c:320-356 | after a call, `call_sp`, `line_num` and the function table are as before, the invariant holds, a function without a body gives SYSERR, and otherwise the result is the body's exit code |
| ScriptProps.AssignFive | script_interpreter.c:588-615 | the line `x = 5` sets `x` to the Int 5 |
| ScriptProps.ReturnX | script_interpreter.c:377-394 | the line `return $x` with `x` = 5 stops with exit code 5 |
| ScriptProps.TwoLines | script_interpreter.c:685-694 | the script text cuts into its two lines |
| ScriptProps.RunTwoLines | script_interpreter.c:685-695 | running `x = 5` then `return $x` leaves exit code 5 |
| ScriptProps.ScriptReturnsVariable | script_interpreter.c:663-701 | the script `x = 5` / `return $x` returns 5 |
| Script.SkipBlankRun | script_interpreter.c:366 | the blank-skipping loop stops at the first non-blank |
| Script.TrimEndRun | script_interpreter.c:595 | the trimming loop removes exactly the trailing blanks |
| Script.Strchr | script_interpreter.c:571 | the search returns the first occurrence, or -1 |
| Script.SplitLines | script_interpreter.c:685-694 | the `strtok_r` loop yields exactly the non-empty newline-free pieces, in order |
| Script.NameAt | script_interpreter.c:380-385 | the name loop copies the run of name characters, at most 63 |
| Script.DigitsAt | script_interpreter.c:400-423 | a digit loop computes the value of the maximal digit run |
| Script.DigitStep | script_interpreter.c:415 | one turn of a digit loop multiplies by the base and adds the digit |
| Script.LiteralAt | script_interpreter.c:397-424 | the literal is read as hexadecimal after `0x`, octal after `0` and an octal digit, decimal otherwise |
| Script.ScriptContext.constructor | script_interpreter.c:31-41 | creation yields the reset of the zeroed context |
| Script.ScriptContext.ResetContext | script_interpreter.c:60-103 | `script_reset_context` on the arrays yields the specification's reset |
| Script.ScriptContext.ClearTables | script_interpreter.c:68-90 | the three clearing loops |
| Script.ScriptContext.ClearSlots | script_interpreter.c:68-74 | a clearing loop clears every slot |
| Script.ScriptContext.SetVar | script_interpreter.c:145-187 | `create_var` then `script_set_var`, in place |
| Script.ScriptContext.GetVar | script_interpreter.c:189-230 | `script_get_var` with a value buffer |
| Script.ScriptContext.UnsetVar | script_interpreter.c:232-252 | `script_unset_var` in place |
| Script.ScriptContext.VarExists | script_interpreter.c:254-256 | `script_var_exists` |
| Script.ScriptContext.MarkReadonly | interpreter.h:108 | sets a variable's `readonly` flag |
| Script.ScriptContext.DefineFunc | script_interpreter.c:272-318 | `script_define_func` in place |
| Script.ScriptContext.CreateLabel | script_interpreter.c:484-507 | `create_label` in place |
| Script.ScriptContext.GotoLabel | script_interpreter.c:509-523 | `script_goto_label` |
| Script.ScriptContext.Break | script_interpreter.c:525-534 | `script_break` |
| Script.ScriptContext.Continue | script_interpreter.c:536-545 | `script_continue` |
| Script.ScriptContext.Return | script_interpreter.c:547-556 | `script_return` |
| Script.ScriptContext.EvalInt | script_interpreter.c:360-427 | `script_eval_int` |
| Script.ScriptContext.EvalBool | script_interpreter.c:443-468 | `script_eval_bool` |
| Script.ScriptContext.ExecuteKeyword | script_interpreter.c:618-652 | the keyword branch |
| Script.ScriptContext.ExecuteStatement | script_interpreter.c:587-652 | an assignment, otherwise the keyword branch |
| Script.ScriptContext.ExecuteLabelled | script_interpreter.c:570-585 | the label step |
| Script.ScriptContext.ExecuteLine | script_interpreter.c:559-653 | `execute_line` |
| Script.ScriptContext.Execute | script_interpreter.c:663-701 | `script_execute` |
| Script.ScriptContext.RunLoop | script_interpreter.c:686-695 | the line loop |
| Script.ScriptContext.CallFunc | script_interpreter.c:320-356 | `script_call_func` |
| Script.ScriptContext.PushFrame | script_interpreter.c:336-339 | pushing the call frame |
| Script.ScriptContext.PopFrame | script_interpreter.c:351-353 | popping the call frame |
| Script.ScriptContext.BindParams | script_interpreter.c:342-345 | `arg<i>` is bound for every `i` below both `num_params` and the argument count |

## Left out

- Terminal input (`shell_readline`), the prompt, the read-execute loop and every message the shell prints are not modelled. They are I/O.
- The output-only builtins `help`, `pwd`, `echo`, `env`, `ps`, `jobs`, `mem` and `clear`, and `history`/`alias` without operands, list state. Each is modelled as returning 0 with no change.
- `kill`, `sleep` and `resume` are calls into the kernel. `cmd_kill` and `cmd_sleep` are modelled by their status alone: 1 without an operand, 0 otherwise. That is, `kill` is taken to succeed; the 1 it gives when the kernel refuses is not modelled. `shell_bg`'s `resume` has no modelled effect.
- `shell_wait_job`, and the wait at the end of `shell_fg`, spin until the job stops running, which in this build never happens. `fg` is modelled up to its state update.
- `getpid()` is the constructor's parameter `currentPid`.
- Float values (`eval_float`, `expr_eval_float`, the float branches of set and get) are not modelled. Array values are an opaque pointer and are not modelled either.
- Neither are `script_eval_string`, `expr_eval_arithmetic` and `expr_eval_string`, which are stubs. The `script_execute_file` and `shell_execute_file` stubs, and the functions that are only declared (redirection, pipelines, `shell_tokenize`, `shell_unregister_command`), are not modelled.
- Heap management is not modelled. This covers `script_destroy_context` and the allocation failures in `script_create_context`, `script_define_func` and `script_execute`. Creation is modelled as the reset of a zeroed context.
- The checks for NULL arguments are not modelled: every argument here is a value.
- Integers are mathematical. The 32-bit overflow in the digit loops of `script_eval_int` and in `atoi` is not modelled; in C it is undefined behaviour.
- Script.ScriptContext.EvalInt: a `$name` naming a String variable yields 0. The C code also copies the string into a 4-byte integer, overrunning it; that is not modelled.
- Script.ScriptContext.GetVar: only the call with a value buffer is modelled; a NULL buffer is not.
- Script.ScriptContext.MarkReadonly: the C code has no setter for the read-only flag. This one exists so that the refusal paths of set and unset can be stated.
- Shell.Shell.CmdTime: `time` re-enters `shell_execute` with its operands joined by blanks. The depth of that recursion is bounded by a `fuel` parameter, and fuel exhaustion returns 1. The elapsed-time text is printed and is not modelled. The joined line is not cut at the 256-byte buffer, which `strcat` would overrun; `shell_execute` cuts it to 255 characters anyway.
- Shell.Shell.Execute: carries the same `fuel` bound, which matters only for nested `time`.
- The command registry is a sequence of at most 128 registered commands. The unused slots of the C array are not modelled.
- Script.SplitLines: `strtok_r` is modelled as cutting the whole script before the loop starts. The copy it cuts is private to `script_execute`, so the pieces are the same.
- `script_call_func`, the glob matcher and the regex matcher are not reachable from script text and are modelled as operations of their own.
