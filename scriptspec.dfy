/** The script interpreter's context (`script_context_t`,
    script_interpreter.c) as a value, and each of its operations as a
    function from the old context to the new one and the status returned. */
module ScriptSpec {
  import opened Interpreter
  import opened CString
  import opened Slots

  /** Longest string value kept: `SCRIPT_VAR_VAL_LEN - 1`. */
  const ValMax: nat := 255

  /** A variable's `type` with the member of `value` that type selects.
      FLOAT and ARRAY values are not modelled. */
  datatype Value = IntValue(n: int) | StringValue(s: string) | Undefined

  /** The payload of a variable slot. */
  datatype Var = Var(value: Value, readonly: bool, exported: bool)

  /** The payload of a function slot: the owned copy of the body (NULL after
      a reset) and the declared parameter count. */
  datatype Func = Func(body: Option<string>, numParams: int)

  datatype Context = Context(
    vars: seq<Slot<Var>>,
    funcs: seq<Slot<Func>>,
    labels: seq<Slot<int>>,
    varCount: int,
    funcCount: int,
    labelCount: int,
    lineNum: int,
    running: bool,
    exitCode: int,
    loopStack: seq<int>,
    loopSp: int,
    callStack: seq<int>,
    callSp: int,
    stdinFd: int,
    stdoutFd: int,
    stderrFd: int)

  /** The stack pointers index their stacks. */
  predicate StacksOk(c: Context)
  {
    0 <= c.loopSp <= |c.loopStack| && 0 <= c.callSp <= |c.callStack|
  }

  /** The invariant every operation keeps: table and stack sizes from
      interpreter.h, each count equal to the number of defined slots, an
      empty loop stack (nothing ever pushes it) and an in-range call stack
      pointer. */
  ghost predicate ValidContext(c: Context)
  {
    && |c.vars| == ScriptMaxVars && |c.funcs| == ScriptMaxFuncs && |c.labels| == ScriptMaxLabels
    && c.varCount == Count(c.vars) && c.funcCount == Count(c.funcs) && c.labelCount == Count(c.labels)
    && |c.loopStack| == ScriptMaxStack && |c.callStack| == ScriptMaxStack
    && c.loopSp == 0 && 0 <= c.callSp <= ScriptMaxStack
  }

  /** Only variables, labels, `line_num`, `running` and `exit_code` may
      differ between `c` and `d`. */
  predicate Frame(c: Context, d: Context)
  {
    && d.funcs == c.funcs && d.funcCount == c.funcCount
    && d.loopStack == c.loopStack && d.loopSp == c.loopSp
    && d.callStack == c.callStack && d.callSp == c.callSp
    && d.stdinFd == c.stdinFd && d.stdoutFd == c.stdoutFd && d.stderrFd == c.stderrFd
    && |d.vars| == |c.vars| && |d.labels| == |c.labels|
  }

  // ---------------------------------------------------------------------
  // Reset.

  function ClearVar(e: Slot<Var>): Slot<Var> { e.(defined := false, val := Var(Undefined, false, false)) }
  function ClearFunc(e: Slot<Func>): Slot<Func> { e.(defined := false, val := e.val.(body := None)) }
  function ClearLabel(e: Slot<int>): Slot<int> { e.(defined := false) }

  /** A clearing loop of `script_reset_context`: `clear` applied to every slot. */
  function ClearEach<V>(s: seq<Slot<V>>, clear: Slot<V> -> Slot<V>): (r: seq<Slot<V>>)
    ensures |r| == |s| && forall i :: 0 <= i < |s| ==> r[i] == clear(s[i])
  {
    seq(|s|, i requires 0 <= i < |s| => clear(s[i]))
  }

  /** `script_reset_context`: every slot undefined (names stay behind in
      the cleared slots), function bodies released, counters and stack
      pointers zero, not running, standard descriptors 0, 1 and 2; the stack
      contents are left as they are. */
  function Reset(c: Context): Context
  {
    c.(vars := ClearEach(c.vars, ClearVar), varCount := 0,
       funcs := ClearEach(c.funcs, ClearFunc), funcCount := 0,
       labels := ClearEach(c.labels, ClearLabel), labelCount := 0,
       lineNum := 0, running := false, exitCode := 0, loopSp := 0, callSp := 0,
       stdinFd := 0, stdoutFd := 1, stderrFd := 2)
  }

  /** All-zero memory of the context's shape: what `script_create_context`
      resets. */
  function Blank(): Context
  {
    Context(seq(ScriptMaxVars, _ => Slot("", Var(Undefined, false, false), false)),
            seq(ScriptMaxFuncs, _ => Slot("", Func(None, 0), false)),
            seq(ScriptMaxLabels, _ => Slot("", 0, false)),
            0, 0, 0, 0, false, 0,
            seq(ScriptMaxStack, _ => 0), 0, seq(ScriptMaxStack, _ => 0), 0, 0, 0, 0)
  }

  // ---------------------------------------------------------------------
  // Variables.

  /** What a slot keeps of a value: strings are cut to 255 characters. */
  function Kept(v: Value): Value
  {
    if v.StringValue? then StringValue(Truncate(v.s, ValMax)) else v
  }

  function VarExists(c: Context, name: string): bool
  {
    FindIn(c.vars, name) >= 0
  }

  /** `script_set_var(ctx, name, type, value)`: `create_var` finds the name
      or takes the first free slot (SYSERR when there is none); a read-only
      variable is refused; otherwise type and value are overwritten.  The
      UNDEFINED type is stored and then reported as SYSERR. */
  function SetVar(c: Context, name: string, v: Value): (r: (Context, int))
    ensures Frame(c, r.0)
  {
    var i := FindIn(c.vars, name);
    if i >= 0 then
      if c.vars[i].val.readonly then (c, SysErr)
      else (c.(vars := c.vars[i := c.vars[i].(val := c.vars[i].val.(value := Kept(v)))]),
            if v.Undefined? then SysErr else Ok)
    else
      var j := FreeIn(c.vars);
      if j < 0 then (c, SysErr)
      else (c.(vars := c.vars[j := Slot(Truncate(name, NameMax), Var(Kept(v), false, false), true)],
               varCount := c.varCount + 1),
            if v.Undefined? then SysErr else Ok)
  }

  /** `script_get_var(ctx, name, &type, buf)` with a value buffer: `None`
      is SYSERR, for a missing name or a variable of UNDEFINED type. */
  function GetVar(c: Context, name: string): Option<Value>
  {
    var i := FindIn(c.vars, name);
    if i < 0 || c.vars[i].val.value.Undefined? then None else Some(c.vars[i].val.value)
  }

  /** `script_unset_var`. */
  function UnsetVar(c: Context, name: string): (Context, int)
  {
    var i := FindIn(c.vars, name);
    if i < 0 || c.vars[i].val.readonly then (c, SysErr)
    else (c.(vars := c.vars[i := c.vars[i].(defined := false)], varCount := c.varCount - 1), Ok)
  }

  /** Sets the `readonly` flag of a variable.  No code path of the source
      does this; it exists so that the read-only refusals can be stated. */
  function MarkReadonly(c: Context, name: string): Context
  {
    var i := FindIn(c.vars, name);
    if i < 0 then c else c.(vars := c.vars[i := c.vars[i].(val := c.vars[i].val.(readonly := true))])
  }

  // ---------------------------------------------------------------------
  // Functions and labels.

  /** `script_define_func`: replace the body and parameter count of an
      existing function, else take the first free slot; SYSERR when all 64
      are taken. */
  function DefineFunc(c: Context, name: string, body: string, numParams: int): (Context, int)
  {
    match Upsert(c.funcs, name, Func(Some(body), numParams))
    case None => (c, SysErr)
    case Some(f) => (c.(funcs := f, funcCount := c.funcCount + if FindIn(c.funcs, name) >= 0 then 0 else 1), Ok)
  }

  /** `create_label`: record or move a label. */
  function CreateLabel(c: Context, name: string, line: int): (r: (Context, int))
    ensures Frame(c, r.0)
  {
    match Upsert(c.labels, name, line)
    case None => (c, SysErr)
    case Some(l) => (c.(labels := l, labelCount := c.labelCount + if FindIn(c.labels, name) >= 0 then 0 else 1), Ok)
  }

  /** `script_goto_label`: only `line_num` changes. */
  function GotoLabel(c: Context, name: string): (Context, int)
  {
    var i := FindIn(c.labels, name);
    if i < 0 then (c, SysErr) else (c.(lineNum := c.labels[i].val), Ok)
  }

  /** `script_break`. */
  function Break(c: Context): (Context, int)
    requires StacksOk(c)
  {
    if c.loopSp == 0 then (c, SysErr) else (c.(lineNum := c.loopStack[c.loopSp - 1]), Ok)
  }

  /** `script_continue`. */
  function Continue(c: Context): (Context, int)
    requires StacksOk(c)
  {
    if c.loopSp == 0 then (c, SysErr) else (c.(lineNum := c.loopStack[c.loopSp - 1] - 1), Ok)
  }

  /** `script_return`. */
  function Return(c: Context, v: int): (Context, int)
  {
    (c.(exitCode := v, running := false), Ok)
  }

  // ---------------------------------------------------------------------
  // Expressions.

  /** The name characters starting at `k`. */
  function NameRun(s: string, k: nat): string
    decreases |s| - k
  {
    if k < |s| && IsNameChar(s[k]) then [s[k]] + NameRun(s, k + 1) else []
  }

  /** The unsigned literal at `k`: `0x`/`0X` and hex digits, `0` and octal
      digits, or decimal digits, each up to the first character that is not
      a digit of its base. */
  function Literal(s: string, k: nat): nat
  {
    if k + 1 < |s| && s[k] == '0' && (s[k + 1] == 'x' || s[k + 1] == 'X') then DigitsValue(DigitRun(s, k + 2, 16), 16)
    else if k + 1 < |s| && s[k] == '0' && IsOctal(s[k + 1]) then DigitsValue(DigitRun(s, k + 1, 8), 8)
    else DigitsValue(DigitRun(s, k, 10), 10)
  }

  /** `script_eval_int`: blanks, one optional sign, then a `$name`
      reference (its value if it is an Int variable, else 0, the sign
      applying to the value) or a literal. */
  function EvalInt(c: Context, expr: string): int
  {
    var i := SkipBlanks(expr, 0);
    var neg := i < |expr| && expr[i] == '-';
    var k := if i < |expr| && (expr[i] == '-' || expr[i] == '+') then i + 1 else i;
    if k < |expr| && expr[k] == '$' then
      match GetVar(c, Truncate(NameRun(expr, k + 1), NameMax))
      case Some(IntValue(n)) => if neg then -n else n
      case _ => 0
    else
      var m: int := Literal(expr, k);
      if neg then -m else m
  }

  /** `script_eval_bool`. */
  function EvalBool(c: Context, expr: string): bool
  {
    var i := SkipBlanks(expr, 0);
    if i == |expr| then false
    else if expr[i..] == "true" || expr[i..] == "TRUE" || expr[i..] == "1" then true
    else if expr[i..] == "false" || expr[i..] == "FALSE" || expr[i..] == "0" then false
    else EvalInt(c, expr) != 0
  }

  /** `expr_eval_condition` (`None` is a NULL pointer). */
  function EvalCondition(expr: Option<string>): bool
  {
    expr.Some? && expr.value != [] && expr.value != "0"
  }

  // ---------------------------------------------------------------------
  // Lines.

  function StartsWith(s: string, prefix: string): bool
  {
    |prefix| <= |s| && s[..|prefix|] == prefix
  }

  /** The length of `s[..n]` with its trailing blanks removed. */
  function TrimEnd(s: string, n: nat): (r: nat)
    requires n <= |s|
    ensures r <= n
  {
    if n > 0 && IsBlank(s[n - 1]) then TrimEnd(s, n - 1) else n
  }

  /** The keyword branch of `execute_line` on the statement `p`. */
  function Keyword(c: Context, p: string): (r: (Context, int))
    requires StacksOk(c)
    ensures Frame(c, r.0)
  {
    if StartsWith(p, "if ") || StartsWith(p, "while ") || StartsWith(p, "for ") then (c, Ok)
    else if p == "break" then Break(c)
    else if p == "continue" then Continue(c)
    else if StartsWith(p, "return") then
      var k := SkipBlanks(p, 6);
      Return(c, if k < |p| then EvalInt(c, p[k..]) else 0)
    else if StartsWith(p, "goto ") then GotoLabel(c, p[SkipBlanks(p, 5)..])
    else (c, Ok)
  }

  /** The assignment test of `execute_line`: the first `=`, not at the
      start and not after `!`, `<` or `>`, with a name (trailing blanks
      dropped) shorter than 64 characters. */
  predicate IsAssignment(p: string)
  {
    var e := IndexOf(p, '=');
    e > 0 && p[e - 1] != '!' && p[e - 1] != '<' && p[e - 1] != '>' && TrimEnd(p, e) < ScriptVarNameLen
  }

  /** The value an assignment stores: a number when the value text starts
      with a digit or a sign, else the text itself. */
  function AssignedValue(c: Context, text: string): Value
  {
    if text != [] && (IsDigit(text[0]) || text[0] == '-' || text[0] == '+') then IntValue(EvalInt(c, text))
    else StringValue(text)
  }

  /** `execute_line` after the label step, on a statement `p`. */
  function Statement(c: Context, p: string): (r: (Context, int))
    requires StacksOk(c)
    ensures Frame(c, r.0)
  {
    if IsAssignment(p) then
      var e := IndexOf(p, '=');
      var text := p[SkipBlanks(p, e + 1)..];
      (SetVar(c, p[..TrimEnd(p, e)], AssignedValue(c, text)).0, Ok)
    else Keyword(c, p)
  }

  /** `execute_line(ctx, line)`: skip a blank or `#` line; record a label
      for text before a `:` that is not the first character; then the rest
      of the line is an assignment, a keyword or an expression. */
  function Step(c: Context, line: string): (r: (Context, int))
    requires StacksOk(c)
    ensures Frame(c, r.0)
  {
    var i := SkipBlanks(line, 0);
    if i == |line| || line[i] == '#' then (c, Ok)
    else
      var p := line[i..];
      var colon := IndexOf(p, ':');
      if colon > 0 then Labelled(c, p, colon) else Statement(c, p)
  }

  /** The label step of `execute_line`: a name shorter than 64 characters
      before the first `:` (at `colon`) is recorded at the current line
      number, a longer one is ignored; the text after the `:` and its
      blanks, if any, is the statement. */
  function Labelled(c: Context, p: string, colon: nat): (r: (Context, int))
    requires StacksOk(c) && colon < |p|
    ensures Frame(c, r.0)
  {
    var c1 := if colon < ScriptVarNameLen then CreateLabel(c, p[..colon], c.lineNum).0 else c;
    var k := SkipBlanks(p, colon + 1);
    if k == |p| then (c1, Ok) else Statement(c1, p[k..])
  }

  /** The pieces `strtok_r(script, "\n")` returns, in order: the maximal
      non-empty runs of characters other than a newline.  `cur` is the run
      being collected. */
  function SegmentsFrom(s: string, cur: string): (r: seq<string>)
    decreases |s|
  {
    if s == [] then (if cur == [] then [] else [cur])
    else if s[0] == '\n' then (if cur == [] then [] else [cur]) + SegmentsFrom(s[1..], [])
    else SegmentsFrom(s[1..], cur + [s[0]])
  }

  function Segments(s: string): seq<string> { SegmentsFrom(s, []) }

  /** Lines joined by newlines: the inverse of `Segments`. */
  function JoinLines(ls: seq<string>): string
  {
    if ls == [] then [] else if |ls| == 1 then ls[0] else ls[0] + "\n" + JoinLines(ls[1..])
  }

  /** What a line step has to be for the loop below: defined on every
      context whose stack pointers are in range, and changing no more than
      `Frame` allows. */
  ghost predicate IsStep(step: (Context, string) --> (Context, int))
  {
    forall d: Context, l: string :: StacksOk(d) ==> step.requires(d, l) && Frame(d, step(d, l).0)
  }

  /** The `while (line != NULL && ctx->running)` loop of `script_execute`
      with line step `step`: count the line, run it, stop at the first
      status other than OK. */
  function Run(step: (Context, string) --> (Context, int), c: Context, lines: seq<string>): (d: Context)
    requires IsStep(step) && StacksOk(c)
    ensures Frame(c, d)
    decreases |lines|
  {
    if lines == [] || !c.running then c
    else
      var r := step(c.(lineNum := c.lineNum + 1), lines[0]);
      if r.1 != Ok then r.0 else Run(step, r.0, lines[1..])
  }

  /** The loop with `execute_line` as its step. */
  function RunLines(c: Context, lines: seq<string>): (d: Context)
    requires StacksOk(c)
    ensures Frame(c, d)
  {
    assert IsStep(Step);
    Run(Step, c, lines)
  }

  /** `script_execute(ctx, script)`: result is `exit_code`. */
  function Execute(c: Context, script: string): (r: (Context, int))
    requires StacksOk(c)
    ensures Frame(c, r.0)
  {
    var d := RunLines(c.(running := true, lineNum := 0), Segments(script));
    (d.(running := false), d.exitCode)
  }

  /** The parameter variable `arg<i>` (`snprintf(param_name, 32, "arg%d", i)`). */
  function ArgName(i: nat): string { "arg" + NatToString(i) }

  /** The binding loop of `script_call_func`: `arg<k>` .. `arg<n-1>` become
      String variables; failures are ignored. */
  function BindArgs(c: Context, args: seq<string>, k: nat, n: nat): (d: Context)
    requires n <= |args|
    ensures Frame(c, d)
    decreases n - k
  {
    if k >= n then c else BindArgs(SetVar(c, ArgName(k), StringValue(args[k])).0, args, k + 1, n)
  }

  /** "Push call frame": `line_num` saved on the call stack. */
  function PushFrame(c: Context): Context
    requires 0 <= c.callSp < |c.callStack|
  {
    c.(callStack := c.callStack[c.callSp := c.lineNum], callSp := c.callSp + 1)
  }

  /** "Pop call frame": `line_num` restored from the call stack, if it is
      not empty. */
  function PopFrame(c: Context): Context
    requires StacksOk(c)
  {
    if c.callSp > 0 then c.(callSp := c.callSp - 1, lineNum := c.callStack[c.callSp - 1]) else c
  }

  /** `script_call_func(ctx, name, argc, argv)`: push `line_num`, bind the
      parameters, run the body, pop `line_num` back. */
  function CallFunc(c: Context, name: string, args: seq<string>): (Context, int)
    requires StacksOk(c) && |c.callStack| == ScriptMaxStack
  {
    var i := FindIn(c.funcs, name);
    if i < 0 || c.callSp >= ScriptMaxStack then (c, SysErr)
    else
      var f := c.funcs[i].val;
      var n := if f.numParams < 0 then 0 else Min(f.numParams, |args|);
      var c2 := BindArgs(PushFrame(c), args, 0, n);
      var r := if f.body.Some? then Execute(c2, f.body.value) else (c2, SysErr);
      (PopFrame(r.0), r.1)
  }
}
