/** `script_context_t` as an object: the tables are arrays updated in
    place, and every operation of script_interpreter.c is a method proved to
    leave the context, and return the status, that the corresponding
    `ScriptSpec` function describes. */
module Script {
  import opened Interpreter
  import opened CString
  import opened Slots
  import opened ScriptSpec
  import opened ScriptProps

  /** The `while (*p == ' ' || *p == '\t') p++;` loop. */
  method SkipBlankRun(s: string, i: nat) returns (j: nat)
    requires i <= |s|
    ensures j == SkipBlanks(s, i)
  {
    j := i;
    while j < |s| && IsBlank(s[j])
      invariant i <= j <= |s|
      invariant SkipBlanks(s, j) == SkipBlanks(s, i)
    {
      j := j + 1;
    }
  }

  /** The `while (len > 0 && (p[len - 1] == ' ' || p[len - 1] == '\t')) len--;`
      loop. */
  method TrimEndRun(s: string, n: nat) returns (len: nat)
    requires n <= |s|
    ensures len == TrimEnd(s, n)
  {
    len := n;
    while len > 0 && IsBlank(s[len - 1])
      invariant len <= n && TrimEnd(s, len) == TrimEnd(s, n)
    {
      len := len - 1;
    }
  }

  /** `strchr(s, c)`: the index of the first `c`, or -1 for NULL. */
  method Strchr(s: string, c: char) returns (r: int)
    ensures r == IndexOf(s, c)
  {
    var i := 0;
    while i < |s|
      invariant 0 <= i <= |s| && c !in s[..i]
    {
      if s[i] == c {
        IndexOfFirst(s, c, i);
        return i;
      }
      assert s[..i + 1] == s[..i] + [s[i]];
      i := i + 1;
    }
    assert s[..i] == s;
    return -1;
  }

  /** The `strtok_r(copy, "\n", &saveptr)` loop of `script_execute`, run
      ahead of the lines it yields (the copy is private to the call, so
      splitting first yields the same pieces). */
  method SplitLines(script: string) returns (ls: seq<string>)
    ensures ls == Segments(script)
  {
    ls := [];
    var cur: string := [];
    var k := 0;
    while k < |script|
      invariant 0 <= k <= |script|
      invariant ls + SegmentsFrom(script[k..], cur) == Segments(script)
    {
      assert script[k..][1..] == script[k + 1..];
      if script[k] == '\n' {
        if cur != [] {
          ls := ls + [cur];
        }
        cur := [];
      } else {
        cur := cur + [script[k]];
      }
      k := k + 1;
    }
    if cur != [] {
      ls := ls + [cur];
    }
  }

  /** The `$name` copy loop of `script_eval_int`: name characters from `k`,
      at most 63 of them. */
  method NameAt(s: string, k: nat) returns (name: string)
    requires k <= |s|
    ensures name == Truncate(NameRun(s, k), NameMax)
  {
    var p := k;
    name := [];
    while p < |s| && IsNameChar(s[p]) && |name| < NameMax
      invariant k <= p <= |s| && p == k + |name| && |name| <= NameMax
      invariant name == s[k..p] && NameRun(s, k) == name + NameRun(s, p)
    {
      name := name + [s[p]];
      p := p + 1;
    }
  }

  /** A digit loop of `script_eval_int`: `result = result * base + digit`
      while the character at `p` is a digit of `base`. */
  method DigitsAt(s: string, k: nat, base: nat) returns (m: nat)
    requires k <= |s|
    ensures m == DigitsValue(DigitRun(s, k, base), base)
  {
    var p := k;
    m := 0;
    while p < |s| && IsDigitIn(s[p], base)
      invariant k <= p <= |s|
      invariant forall j :: k <= j < p ==> IsDigitIn(s[j], base)
      invariant m == DigitsValue(s[k..p], base)
    {
      DigitStep(s, k, p, base);
      m := m * base + DigitValue(s[p]);
      p := p + 1;
    }
    assert AllDigits(s[k..p], base) by {
      forall j | 0 <= j < p - k ensures IsDigitIn(s[k..p][j], base) { assert s[k..p][j] == s[k + j]; }
    }
    DigitRunIs(s, k, p, base);
  }

  /** One turn of a digit loop: the value grows as the loop body computes
      it. */
  lemma DigitStep(s: string, k: nat, p: nat, base: nat)
    requires k <= p < |s|
    ensures DigitsValue(s[k..p + 1], base) == DigitsValue(s[k..p], base) * base + DigitValue(s[p])
  {
    var ds := s[k..p + 1];
    assert ds[..|ds| - 1] == s[k..p] && ds[|ds| - 1] == s[p];
  }

  /** The literal branch of `script_eval_int` at `k`: hexadecimal after
      `0x`/`0X`, octal after a `0` followed by an octal digit, else
      decimal. */
  method LiteralAt(s: string, k: nat) returns (m: nat)
    requires k <= |s|
    ensures m == Literal(s, k)
  {
    if k + 1 < |s| && s[k] == '0' && (s[k + 1] == 'x' || s[k + 1] == 'X') {
      m := DigitsAt(s, k + 2, 16);
    } else if k + 1 < |s| && s[k] == '0' && IsOctal(s[k + 1]) {
      m := DigitsAt(s, k + 1, 8);
    } else {
      m := DigitsAt(s, k, 10);
    }
  }

  class ScriptContext {
    const vars: array<Slot<Var>>
    const funcs: array<Slot<Func>>
    const labels: array<Slot<int>>
    var varCount: int
    var funcCount: int
    var labelCount: int
    var lineNum: int
    var running: bool
    var exitCode: int
    const loopStack: array<int>
    var loopSp: int
    const callStack: array<int>
    var callSp: int
    var stdinFd: int
    var stdoutFd: int
    var stderrFd: int

    /** The context as a value. */
    function Abs(): Context
      reads this, vars, funcs, labels, loopStack, callStack
    {
      Context(vars[..], funcs[..], labels[..], varCount, funcCount, labelCount,
              lineNum, running, exitCode, loopStack[..], loopSp, callStack[..], callSp,
              stdinFd, stdoutFd, stderrFd)
    }

    /** The array sizes of `script_context_t`, two distinct stacks. */
    ghost predicate Shaped()
      reads this
    {
      && vars.Length == ScriptMaxVars && funcs.Length == ScriptMaxFuncs && labels.Length == ScriptMaxLabels
      && loopStack.Length == ScriptMaxStack && callStack.Length == ScriptMaxStack
      && loopStack != callStack
    }

    ghost predicate Valid()
      reads this, vars, funcs, labels, loopStack, callStack
    {
      Shaped() && ValidContext(Abs())
    }

    /** `script_create_context`: zeroed memory, then a reset. */
    constructor ()
      ensures Valid() && Abs() == Reset(Blank())
    {
      vars := new Slot<Var>[ScriptMaxVars](_ => Slot("", Var(Undefined, false, false), false));
      funcs := new Slot<Func>[ScriptMaxFuncs](_ => Slot("", Func(None, 0), false));
      labels := new Slot<int>[ScriptMaxLabels](_ => Slot("", 0, false));
      loopStack := new int[ScriptMaxStack](_ => 0);
      callStack := new int[ScriptMaxStack](_ => 0);
      varCount, funcCount, labelCount, lineNum, running, exitCode := 0, 0, 0, 0, false, 0;
      loopSp, callSp, stdinFd, stdoutFd, stderrFd := 0, 0, 0, 0, 0;
      new;
      assert Abs() == Blank();
      ResetContext();
    }

    /** `script_reset_context`. */
    method ResetContext()
      requires Shaped()
      modifies this, vars, funcs, labels
      ensures Valid() && Abs() == Reset(old(Abs()))
    {
      ghost var c := Abs();
      ClearTables(c);
      varCount, funcCount, labelCount, lineNum, running, exitCode, loopSp, callSp, stdinFd, stdoutFd, stderrFd
        := 0, 0, 0, 0, false, 0, 0, 0, 0, 1, 2;
      ResetIs(c, Abs());
    }

    /** The three clearing loops of `script_reset_context`. */
    method ClearTables(ghost c: Context)
      requires vars[..] == c.vars && funcs[..] == c.funcs && labels[..] == c.labels
      modifies vars, funcs, labels
      ensures vars[..] == Reset(c).vars && funcs[..] == Reset(c).funcs && labels[..] == Reset(c).labels
    {
      ClearSlots(vars, ClearVar);
      ClearSlots(funcs, ClearFunc);
      ClearSlots(labels, ClearLabel);
    }

    /** One of the clearing loops of `script_reset_context`. */
    static method ClearSlots<V>(a: array<Slot<V>>, clear: Slot<V> -> Slot<V>)
      modifies a
      ensures forall j :: 0 <= j < a.Length ==> a[j] == clear(old(a[j]))
    {
      for i := 0 to a.Length
        invariant forall j :: 0 <= j < i ==> a[j] == clear(old(a[j]))
        invariant forall j :: i <= j < a.Length ==> a[j] == old(a[j])
      {
        a[i] := clear(a[i]);
      }
    }

    // -------------------------------------------------------------------
    // Variables.

    /** `script_set_var`: `create_var` (find, else take the first free
        slot), the read-only refusal, then the new type and value. */
    method SetVar(name: string, v: Value) returns (r: int)
      requires Valid()
      modifies this, vars
      ensures Valid() && (Abs(), r) == ScriptSpec.SetVar(old(Abs()), name, v)
    {
      ghost var c := Abs();
      SetVarValid(c, name, v);
      var i := Find(vars, name);
      if i < 0 {
        i := Free(vars);
        if i < 0 {
          return SysErr;
        }
        vars[i], varCount := Slot(Truncate(name, NameMax), Var(Undefined, false, false), true), varCount + 1;
      }
      if vars[i].val.readonly {
        return SysErr;
      }
      vars[i] := vars[i].(val := vars[i].val.(value := Kept(v)));
      r := if v.Undefined? then SysErr else Ok;
      assert vars[..] == ScriptSpec.SetVar(c, name, v).0.vars;
    }

    /** `script_get_var` with a value buffer. */
    method GetVar(name: string) returns (r: Option<Value>)
      ensures r == ScriptSpec.GetVar(Abs(), name)
    {
      var i := Find(vars, name);
      if i < 0 || vars[i].val.value.Undefined? {
        return None;
      }
      return Some(vars[i].val.value);
    }

    /** `script_unset_var`. */
    method UnsetVar(name: string) returns (r: int)
      requires Valid()
      modifies this, vars
      ensures Valid() && (Abs(), r) == ScriptSpec.UnsetVar(old(Abs()), name)
    {
      var i := Find(vars, name);
      if i < 0 || vars[i].val.readonly {
        return SysErr;
      }
      CountUpdate(vars[..], i, vars[i].(defined := false));
      vars[i], varCount := vars[i].(defined := false), varCount - 1;
      return Ok;
    }

    /** `script_var_exists`. */
    method VarExists(name: string) returns (b: bool)
      ensures b == ScriptSpec.VarExists(Abs(), name)
    {
      var i := Find(vars, name);
      return i >= 0;
    }

    /** Sets a variable's `readonly` flag (see `ScriptSpec.MarkReadonly`). */
    method MarkReadonly(name: string)
      requires Valid()
      modifies vars
      ensures Valid() && Abs() == ScriptSpec.MarkReadonly(old(Abs()), name)
    {
      var i := Find(vars, name);
      if i >= 0 {
        CountUpdate(vars[..], i, vars[i].(val := vars[i].val.(readonly := true)));
        vars[i] := vars[i].(val := vars[i].val.(readonly := true));
      }
    }

    // -------------------------------------------------------------------
    // Functions and labels.

    /** `script_define_func`: find the function, else take the first free
        slot (SYSERR when there is none), then store body and parameter
        count. */
    method DefineFunc(name: string, body: string, numParams: int) returns (r: int)
      requires Valid()
      modifies this, funcs
      ensures Valid() && (Abs(), r) == ScriptSpec.DefineFunc(old(Abs()), name, body, numParams)
    {
      ghost var c := Abs();
      DefineFuncResult(c, name, body, numParams);
      var i := Find(funcs, name);
      if i < 0 {
        i := Free(funcs);
        if i < 0 {
          return SysErr;
        }
        funcs[i], funcCount := Slot(Truncate(name, NameMax), funcs[i].val, true), funcCount + 1;
      }
      funcs[i] := funcs[i].(val := Func(Some(body), numParams));
      assert funcs[..] == Upsert(c.funcs, name, Func(Some(body), numParams)).value;
      return Ok;
    }

    /** `create_label`. */
    method CreateLabel(name: string, line: int) returns (r: int)
      requires Valid()
      modifies this, labels
      ensures Valid() && (Abs(), r) == ScriptSpec.CreateLabel(old(Abs()), name, line)
    {
      ghost var c := Abs();
      CreateLabelValid(c, name, line);
      var ok, inserted := UpsertInPlace(labels, name, line);
      if !ok {
        return SysErr;
      }
      if inserted {
        labelCount := labelCount + 1;
      }
      return Ok;
    }

    /** `script_goto_label`. */
    method GotoLabel(name: string) returns (r: int)
      modifies this
      ensures (Abs(), r) == ScriptSpec.GotoLabel(old(Abs()), name)
    {
      var i := Find(labels, name);
      if i < 0 {
        return SysErr;
      }
      lineNum := labels[i].val;
      return Ok;
    }

    // -------------------------------------------------------------------
    // Control flow.

    /** `script_break`. */
    method Break() returns (r: int)
      requires StacksOk(Abs())
      modifies this
      ensures (Abs(), r) == ScriptSpec.Break(old(Abs()))
    {
      if loopSp == 0 {
        return SysErr;
      }
      lineNum := loopStack[loopSp - 1];
      return Ok;
    }

    /** `script_continue`. */
    method Continue() returns (r: int)
      requires StacksOk(Abs())
      modifies this
      ensures (Abs(), r) == ScriptSpec.Continue(old(Abs()))
    {
      if loopSp == 0 {
        return SysErr;
      }
      lineNum := loopStack[loopSp - 1] - 1;
      return Ok;
    }

    /** `script_return`. */
    method Return(v: int) returns (r: int)
      modifies this
      ensures (Abs(), r) == ScriptSpec.Return(old(Abs()), v)
    {
      exitCode, running := v, false;
      return Ok;
    }

    // -------------------------------------------------------------------
    // Expressions.

    /** `script_eval_int`. */
    method EvalInt(expr: string) returns (r: int)
      ensures r == ScriptSpec.EvalInt(Abs(), expr)
    {
      var p := SkipBlankRun(expr, 0);
      var negative := false;
      if p < |expr| && expr[p] == '-' {
        negative, p := true, p + 1;
      } else if p < |expr| && expr[p] == '+' {
        p := p + 1;
      }
      if p < |expr| && expr[p] == '$' {
        p := p + 1;
        var name := NameAt(expr, p);
        var v := GetVar(name);
        if v.Some? && v.value.IntValue? {
          return if negative then -v.value.n else v.value.n;
        }
        return 0;
      }
      var m: int := LiteralAt(expr, p);
      r := if negative then -m else m;
    }

    /** `script_eval_bool`. */
    method EvalBool(expr: string) returns (b: bool)
      ensures b == ScriptSpec.EvalBool(Abs(), expr)
    {
      var p := SkipBlankRun(expr, 0);
      if p == |expr| {
        return false;
      }
      var rest := expr[p..];
      if rest == "true" || rest == "TRUE" || rest == "1" {
        return true;
      }
      if rest == "false" || rest == "FALSE" || rest == "0" {
        return false;
      }
      var v := EvalInt(expr);
      return v != 0;
    }

    // -------------------------------------------------------------------
    // Lines.

    /** The keyword branch of `execute_line` on the statement `p`; the
        conditions of `if` and `while` are evaluated and dropped. */
    method ExecuteKeyword(p: string) returns (r: int)
      requires Valid()
      modifies this
      ensures Valid() && (Abs(), r) == Keyword(old(Abs()), p)
    {
      if StartsWith(p, "if ") {
        var _ := EvalBool(p[3..]);
        r := Ok;
      } else if StartsWith(p, "while ") {
        var _ := EvalBool(p[6..]);
        r := Ok;
      } else if StartsWith(p, "for ") {
        r := Ok;
      } else if p == "break" {
        r := Break();
      } else if p == "continue" {
        r := Continue();
      } else if StartsWith(p, "return") {
        var k := SkipBlankRun(p, 6);
        var v := 0;
        if k < |p| {
          v := EvalInt(p[k..]);
        }
        r := Return(v);
      } else if StartsWith(p, "goto ") {
        var k := SkipBlankRun(p, 5);
        r := GotoLabel(p[k..]);
      } else {
        var _ := EvalInt(p);
        r := Ok;
      }
    }

    /** `execute_line` after the label step: an assignment, else a
        keyword. */
    method ExecuteStatement(p: string) returns (r: int)
      requires Valid()
      modifies this, vars
      ensures Valid() && (Abs(), r) == Statement(old(Abs()), p)
    {
      var e := Strchr(p, '=');
      if e > 0 && p[e - 1] != '!' && p[e - 1] != '<' && p[e - 1] != '>' {
        var len := TrimEndRun(p, e);
        if len < ScriptVarNameLen {
          var k := SkipBlankRun(p, e + 1);
          var text := p[k..];
          if text != [] && (IsDigit(text[0]) || text[0] == '-' || text[0] == '+') {
            var n := EvalInt(text);
            var _ := SetVar(p[..len], IntValue(n));
          } else {
            var _ := SetVar(p[..len], StringValue(text));
          }
          return Ok;
        }
      }
      r := ExecuteKeyword(p);
    }

    /** The label step of `execute_line`, the first `:` being at `colon`. */
    method ExecuteLabelled(p: string, colon: nat) returns (r: int)
      requires Valid() && colon < |p|
      modifies this, vars, labels
      ensures Valid() && (Abs(), r) == Labelled(old(Abs()), p, colon)
    {
      if colon < ScriptVarNameLen {
        var _ := CreateLabel(p[..colon], lineNum);
      }
      var k := SkipBlankRun(p, colon + 1);
      if k == |p| {
        return Ok;
      }
      r := ExecuteStatement(p[k..]);
    }

    /** `execute_line`. */
    method ExecuteLine(line: string) returns (r: int)
      requires Valid()
      modifies this, vars, labels
      ensures Valid() && (Abs(), r) == Step(old(Abs()), line)
    {
      var i := SkipBlankRun(line, 0);
      if i == |line| || line[i] == '#' {
        return Ok;
      }
      var p := line[i..];
      var colon := Strchr(p, ':');
      if colon > 0 {
        r := ExecuteLabelled(p, colon);
      } else {
        r := ExecuteStatement(p);
      }
    }

    /** `script_execute`: every line, in order, while the script runs and
        each line succeeds; the result is `exit_code`. */
    method Execute(script: string) returns (r: int)
      requires Valid()
      modifies this, vars, labels
      ensures Valid() && (Abs(), r) == ScriptSpec.Execute(old(Abs()), script)
    {
      var lines := SplitLines(script);
      running, lineNum := true, 0;
      RunLoop(lines);
      running := false;
      r := exitCode;
    }

    /** The `while (line != NULL && ctx->running)` loop of `script_execute`. */
    method RunLoop(lines: seq<string>)
      requires Valid()
      modifies this, vars, labels
      ensures Valid() && Abs() == RunLines(old(Abs()), lines)
    {
      ghost var start := Abs();
      var k := 0;
      while k < |lines| && running
        invariant 0 <= k <= |lines| && Valid()
        invariant RunLines(Abs(), lines[k..]) == RunLines(start, lines)
      {
        ghost var before := Abs();
        lineNum := lineNum + 1;
        assert Abs() == before.(lineNum := before.lineNum + 1);
        var res := ExecuteLine(lines[k]);
        assert lines[k..][0] == lines[k] && lines[k..][1..] == lines[k + 1..];
        RunLinesCons(before, lines[k..], Abs(), res);
        if res != Ok {
          return;
        }
        k := k + 1;
      }
    }

    // -------------------------------------------------------------------
    // Functions.

    /** `script_call_func`: push `line_num`, bind the parameters, run the
        body, pop. */
    method CallFunc(name: string, args: seq<string>) returns (r: int)
      requires Valid()
      modifies this, vars, labels, callStack
      ensures Valid() && (Abs(), r) == ScriptSpec.CallFunc(old(Abs()), name, args)
    {
      var i := Find(funcs, name);
      if i < 0 || callSp >= ScriptMaxStack {
        return SysErr;
      }
      var f := funcs[i].val;
      PushFrame();
      BindParams(args, f.numParams);
      if f.body.Some? {
        r := Execute(f.body.value);
      } else {
        r := SysErr;
      }
      PopFrame();
    }

    /** "Push call frame". */
    method PushFrame()
      requires Valid() && callSp < ScriptMaxStack
      modifies this, callStack
      ensures Valid() && Abs() == ScriptSpec.PushFrame(old(Abs()))
    {
      callStack[callSp] := lineNum;
      callSp := callSp + 1;
    }

    /** "Pop call frame". */
    method PopFrame()
      requires Valid()
      modifies this
      ensures Valid() && Abs() == ScriptSpec.PopFrame(old(Abs()))
    {
      if callSp > 0 {
        callSp := callSp - 1;
        lineNum := callStack[callSp];
      }
    }

    /** The parameter loop of `script_call_func`: `arg<i>` := `args[i]` for
        every `i` below both `numParams` and the argument count. */
    method BindParams(args: seq<string>, numParams: int)
      requires Valid()
      modifies this, vars
      ensures Valid() && Abs() == BindArgs(old(Abs()), args, 0, if numParams < 0 then 0 else Min(numParams, |args|))
    {
      ghost var c := Abs();
      ghost var n := if numParams < 0 then 0 else Min(numParams, |args|);
      var j := 0;
      while j < numParams && j < |args|
        invariant 0 <= j <= n && Valid()
        invariant BindArgs(Abs(), args, j, n) == BindArgs(c, args, 0, n)
      {
        var _ := SetVar(ArgName(j), StringValue(args[j]));
        j := j + 1;
      }
    }
  }
}
