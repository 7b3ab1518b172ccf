/** Properties of the script context model: what a reset leaves, how the
    variable, function and label tables behave, what the evaluators
    compute, and how lines and scripts run. */
module ScriptProps {
  import opened Interpreter
  import opened CString
  import opened Slots
  import opened ScriptSpec

  // ---------------------------------------------------------------------
  // Reset.

  /** A reset context is valid and empty: no variable, function or label
      is found, every body is released, and execution state is back at
      zero with the standard descriptors. */
  lemma ResetClears(c: Context)
    requires |c.vars| == ScriptMaxVars && |c.funcs| == ScriptMaxFuncs && |c.labels| == ScriptMaxLabels
    requires |c.loopStack| == ScriptMaxStack && |c.callStack| == ScriptMaxStack
    ensures ValidContext(Reset(c))
    ensures forall n :: !VarExists(Reset(c), n) && GetVar(Reset(c), n) == None
    ensures forall n :: FindIn(Reset(c).funcs, n) < 0 && FindIn(Reset(c).labels, n) < 0
    ensures forall i :: 0 <= i < ScriptMaxFuncs ==> Reset(c).funcs[i].val.body == None
    ensures Reset(c).varCount == 0 && Reset(c).funcCount == 0 && Reset(c).labelCount == 0
    ensures Reset(c).lineNum == 0 && Reset(c).exitCode == 0 && !Reset(c).running
    ensures Reset(c).loopSp == 0 && Reset(c).callSp == 0
    ensures Reset(c).stdinFd == 0 && Reset(c).stdoutFd == 1 && Reset(c).stderrFd == 2
  {
    ResetValid(c);
  }

  /** A context with cleared tables, zero counters and pointers, the
      standard descriptors and the old stacks is the reset context. */
  lemma ResetIs(c: Context, d: Context)
    requires |c.vars| == ScriptMaxVars && |c.funcs| == ScriptMaxFuncs && |c.labels| == ScriptMaxLabels
    requires |c.loopStack| == ScriptMaxStack && |c.callStack| == ScriptMaxStack
    requires d.vars == Reset(c).vars && d.funcs == Reset(c).funcs && d.labels == Reset(c).labels
    requires d.loopStack == c.loopStack && d.callStack == c.callStack
    requires d.varCount == 0 && d.funcCount == 0 && d.labelCount == 0 && d.lineNum == 0 && !d.running
    requires d.exitCode == 0 && d.loopSp == 0 && d.callSp == 0
    requires d.stdinFd == 0 && d.stdoutFd == 1 && d.stderrFd == 2
    ensures d == Reset(c) && ValidContext(d)
  {
    ResetValid(c);
  }

  /** A reset keeps the invariant: every count is that of an empty table. */
  lemma ResetValid(c: Context)
    requires |c.vars| == ScriptMaxVars && |c.funcs| == ScriptMaxFuncs && |c.labels| == ScriptMaxLabels
    requires |c.loopStack| == ScriptMaxStack && |c.callStack| == ScriptMaxStack
    ensures ValidContext(Reset(c))
  {
    var r := Reset(c);
    CountNone(r.vars);
    CountNone(r.funcs);
    CountNone(r.labels);
  }

  /** Resetting twice is resetting once. */
  lemma ResetIdempotent(c: Context)
    ensures Reset(Reset(c)) == Reset(c)
  {
    var r, rr := Reset(c), Reset(Reset(c));
    assert rr.vars == r.vars;
    assert rr.funcs == r.funcs;
    assert rr.labels == r.labels;
  }

  /** The shape of the all-zero context, so that `ResetClears` applies to
      `script_create_context`. */
  lemma BlankShape()
    ensures |Blank().vars| == ScriptMaxVars && |Blank().funcs| == ScriptMaxFuncs && |Blank().labels| == ScriptMaxLabels
    ensures |Blank().loopStack| == ScriptMaxStack && |Blank().callStack| == ScriptMaxStack
  {
  }

  // ---------------------------------------------------------------------
  // Variables.

  /** The cases in which `script_set_var` changes nothing: the variable
      exists and is read-only, or it is new and all 128 slots are taken. */
  ghost predicate Refused(c: Context, name: string)
  {
    var i := FindIn(c.vars, name);
    (i >= 0 && c.vars[i].val.readonly) || (i < 0 && Count(c.vars) == |c.vars|)
  }

  /** A refused set returns SYSERR and leaves the context as it was; in
      particular a 129th distinct name fails. */
  lemma SetVarRefused(c: Context, name: string, v: Value)
    requires Refused(c, name)
    ensures SetVar(c, name, v) == (c, SysErr)
  {
    CountBound(c.vars);
  }

  lemma FullTable(c: Context, name: string, v: Value)
    requires ValidContext(c) && c.varCount == ScriptMaxVars && !VarExists(c, name)
    ensures SetVar(c, name, v) == (c, SysErr)
  {
    SetVarRefused(c, name, v);
  }

  /** Otherwise the variable now exists and reads back as the value that was
      set, whatever type it had before; strings are cut to 255 characters;
      the UNDEFINED type reports SYSERR but the name stays defined. */
  lemma SetVarStores(c: Context, name: string, v: Value)
    requires !Refused(c, name) && |name| <= NameMax
    ensures SetVar(c, name, v).1 == (if v.Undefined? then SysErr else Ok)
    ensures VarExists(SetVar(c, name, v).0, name)
    ensures GetVar(SetVar(c, name, v).0, name) == (if v.Undefined? then None else Some(Kept(v)))
  {
    CountBound(c.vars);
    var d := SetVar(c, name, v).0;
    var i := FindIn(c.vars, name);
    var k := if i >= 0 then i else FreeIn(c.vars);
    assert Holds(d.vars[k], name);
    assert forall j :: 0 <= j < k ==> d.vars[j] == c.vars[j];
    assert FindIn(d.vars, name) == k;
  }

  /** Setting one variable leaves every other name's lookup alone (unless
      it is the 63-character cut of a longer name being created). */
  lemma SetVarFrame(c: Context, name: string, v: Value, other: string)
    requires other != name && other != Truncate(name, NameMax)
    ensures GetVar(SetVar(c, name, v).0, other) == GetVar(c, other)
    ensures VarExists(SetVar(c, name, v).0, other) == VarExists(c, other)
  {
    var i := FindIn(c.vars, name);
    if i >= 0 && !c.vars[i].val.readonly {
      FindInUpdate(c.vars, i, c.vars[i].(val := c.vars[i].val.(value := Kept(v))), other);
    } else if i < 0 && FreeIn(c.vars) >= 0 {
      FindInUpdate(c.vars, FreeIn(c.vars), Slot(Truncate(name, NameMax), Var(Kept(v), false, false), true), other);
    }
  }

  /** `var_count` keeps counting the defined slots. */
  lemma SetVarValid(c: Context, name: string, v: Value)
    requires ValidContext(c)
    ensures ValidContext(SetVar(c, name, v).0)
  {
    var i := FindIn(c.vars, name);
    if i >= 0 {
      CountUpdate(c.vars, i, c.vars[i].(val := c.vars[i].val.(value := Kept(v))));
    } else if FreeIn(c.vars) >= 0 {
      CountUpdate(c.vars, FreeIn(c.vars), Slot(Truncate(name, NameMax), Var(Kept(v), false, false), true));
    }
  }

  /** Names of fewer than 64 characters keep defined names unique. */
  lemma SetVarUnique(c: Context, name: string, v: Value)
    requires UniqueNames(c.vars) && |name| <= NameMax
    ensures UniqueNames(SetVar(c, name, v).0.vars)
  {
  }

  /** A name of 64 or more characters that is not yet defined is stored
      cut to 63 characters, so the set reports success and the name itself
      is still not found. */
  lemma LongNameLost(c: Context, name: string, n: int)
    requires |name| > NameMax && !VarExists(c, name) && Count(c.vars) < |c.vars|
    ensures SetVar(c, name, IntValue(n)).1 == Ok
    ensures !VarExists(SetVar(c, name, IntValue(n)).0, name)
  {
    CountBound(c.vars);
    var d := SetVar(c, name, IntValue(n)).0;
    var j := FreeIn(c.vars);
    assert !Holds(d.vars[j], name);
    assert forall k :: 0 <= k < |c.vars| ==> (Holds(d.vars[k], name) <==> Holds(c.vars[k], name));
    FindInAgrees(d.vars, c.vars, name);
  }

  /** The type is simply overwritten: an Int variable can become a String. */
  lemma TypeChange(c: Context, name: string, n: int, s: string)
    requires !Refused(c, name) && |name| <= NameMax
    ensures GetVar(SetVar(SetVar(c, name, IntValue(n)).0, name, StringValue(s)).0, name)
            == Some(StringValue(Truncate(s, ValMax)))
  {
    SetVarStores(c, name, IntValue(n));
    var d := SetVar(c, name, IntValue(n)).0;
    var i := FindIn(c.vars, name);
    var k := if i >= 0 then i else FreeIn(c.vars);
    CountBound(c.vars);
    assert Holds(d.vars[k], name) && !d.vars[k].val.readonly;
    assert forall j :: 0 <= j < k ==> d.vars[j] == c.vars[j];
    assert FindIn(d.vars, name) == k;
    SetVarStores(d, name, StringValue(s));
  }

  /** A read-only variable can be neither set nor unset. */
  lemma ReadonlyRefusals(c: Context, name: string, v: Value)
    requires VarExists(c, name)
    ensures SetVar(MarkReadonly(c, name), name, v) == (MarkReadonly(c, name), SysErr)
    ensures UnsetVar(MarkReadonly(c, name), name) == (MarkReadonly(c, name), SysErr)
  {
    var m := MarkReadonly(c, name);
    assert forall j :: 0 <= j < |c.vars| ==> (Holds(m.vars[j], name) <==> Holds(c.vars[j], name));
    FindInAgrees(m.vars, c.vars, name);
  }

  /** `script_unset_var` refuses an absent or read-only name with SYSERR
      and changes nothing. */
  lemma UnsetVarRefused(c: Context, name: string)
    ensures !VarExists(c, name) ==> UnsetVar(c, name) == (c, SysErr)
    ensures VarExists(c, name) && c.vars[FindIn(c.vars, name)].val.readonly ==> UnsetVar(c, name) == (c, SysErr)
  {
  }

  /** Otherwise the name no longer exists and `var_count` still counts the
      defined slots. */
  lemma UnsetVarRemoves(c: Context, name: string)
    requires ValidContext(c) && UniqueNames(c.vars)
    requires VarExists(c, name) && !c.vars[FindIn(c.vars, name)].val.readonly
    ensures UnsetVar(c, name).1 == Ok && ValidContext(UnsetVar(c, name).0)
    ensures !VarExists(UnsetVar(c, name).0, name)
  {
    assert UnsetVar(c, name).0.vars == Remove(c.vars, name).value;
    RemoveCount(c.vars, name);
    RemoveLookup(c.vars, name, name);
  }

  /** ... and every other name keeps its value. */
  lemma UnsetVarKeepsOthers(c: Context, name: string, other: string)
    requires VarExists(c, name) && !c.vars[FindIn(c.vars, name)].val.readonly && other != name
    ensures GetVar(UnsetVar(c, name).0, other) == GetVar(c, other)
  {
    var i := FindIn(c.vars, name);
    var t := Remove(c.vars, name).value;
    assert UnsetVar(c, name).0.vars == t;
    assert forall j :: 0 <= j < |c.vars| && j != i ==> t[j] == c.vars[j];
    assert forall j :: 0 <= j < |c.vars| ==> (Holds(t[j], other) <==> Holds(c.vars[j], other));
    FindInAgrees(t, c.vars, other);
  }

  // ---------------------------------------------------------------------
  // Functions.

  /** `script_define_func` redefines an existing function in its own slot,
      takes a new slot otherwise, fails when all 64 are taken, and keeps
      `func_count` equal to the number of defined slots. */
  lemma DefineFuncResult(c: Context, name: string, body: string, n: int)
    requires ValidContext(c)
    ensures ValidContext(DefineFunc(c, name, body, n).0)
    ensures FindIn(c.funcs, name) >= 0 ==>
              && DefineFunc(c, name, body, n).1 == Ok
              && DefineFunc(c, name, body, n).0.funcCount == c.funcCount
              && DefineFunc(c, name, body, n).0.funcs == c.funcs[FindIn(c.funcs, name) := c.funcs[FindIn(c.funcs, name)].(val := Func(Some(body), n))]
    ensures FindIn(c.funcs, name) < 0 && c.funcCount == ScriptMaxFuncs ==> DefineFunc(c, name, body, n) == (c, SysErr)
    ensures DefineFunc(c, name, body, n).1 == Ok && |name| <= NameMax ==>
              Lookup(DefineFunc(c, name, body, n).0.funcs, name) == Some(Func(Some(body), n))
  {
    UpsertFails(c.funcs, name, Func(Some(body), n));
    if Upsert(c.funcs, name, Func(Some(body), n)).Some? {
      UpsertCount(c.funcs, name, Func(Some(body), n));
      if |name| <= NameMax {
        UpsertLookup(c.funcs, name, Func(Some(body), n));
      }
    }
  }

  /** `create_label` keeps `label_count` equal to the number of labels. */
  lemma CreateLabelValid(c: Context, name: string, line: int)
    requires ValidContext(c)
    ensures ValidContext(CreateLabel(c, name, line).0)
  {
    if Upsert(c.labels, name, line).Some? {
      UpsertCount(c.labels, name, line);
      UpsertValues(c.labels, name, line);
    }
  }
  // ---------------------------------------------------------------------
  // Expressions.

  /** A string of name characters is a `$` reference's whole name. */
  lemma {:induction false} NameRunAll(s: string, k: nat)
    requires k <= |s| && forall j :: k <= j < |s| ==> IsNameChar(s[j])
    ensures NameRun(s, k) == s[k..]
    decreases |s| - k
  {
    if k < |s| {
      NameRunAll(s, k + 1);
      assert s[k..] == [s[k]] + s[k + 1..];
    }
  }

  /** `%d` output never starts with a zero unless it is zero. */
  lemma {:induction false} LeadingDigit(n: nat)
    ensures n >= 1 ==> NatToString(n)[0] != '0'
  {
    if n >= 10 {
      LeadingDigit(n / 10);
      NatToStringDigits(n / 10);
    }
  }

  /** Decimal digits without a leading zero are read as decimal. */
  lemma LiteralOfNat(s: string, k: nat, m: nat)
    requires k <= |s| && s[k..] == NatToString(m)
    ensures Literal(s, k) == m
  {
    var ds := NatToString(m);
    NatToStringDigits(m);
    LeadingDigit(m);
    assert s[k..|s|] == ds && s[k] == ds[0];
    DigitRunIs(s, k, |s|, 10);
    assert Literal(s, k) == DigitsValue(DigitRun(s, k, 10), 10) by {
      if m == 0 { assert |s| == k + 1; } else { assert s[k] != '0'; }
    }
  }

  /** `script_eval_int` reads back any number printed in decimal. */
  lemma EvalIntRoundTrip(c: Context, n: int)
    ensures EvalInt(c, IntToString(n)) == n
  {
    if n < 0 {
      EvalIntNegative(c, -n);
    } else {
      EvalIntNatural(c, n);
    }
  }

  lemma EvalIntNatural(c: Context, m: nat)
    ensures EvalInt(c, NatToString(m)) == m
  {
    var s := NatToString(m);
    NatToStringDigits(m);
    assert IsDigitIn(s[0], 10);
    assert SkipBlanks(s, 0) == 0;
    assert s[0..] == s;
    LiteralOfNat(s, 0, m);
  }

  lemma EvalIntNegative(c: Context, m: nat)
    requires m > 0
    ensures EvalInt(c, "-" + NatToString(m)) == -(m as int)
  {
    var ds := NatToString(m);
    NatToStringDigits(m);
    var s := "-" + ds;
    assert s[1..] == ds;
    assert IsDigitIn(ds[0], 10);
    assert s[0] == '-' && SkipBlanks(s, 0) == 0;
    assert s[1] == ds[0] && s[1] != '$';
    LiteralOfNat(s, 1, m);
  }

  /** Text starting with a digit is read as the literal there. */
  lemma EvalIntDigits(c: Context, s: string)
    requires s != [] && IsDigit(s[0])
    ensures EvalInt(c, s) == Literal(s, 0)
  {
    assert SkipBlanks(s, 0) == 0;
  }

  /** Literal examples: a leading `0` means octal only before an octal
      digit, `0x` means hexadecimal, and a sign and blanks may come first. */
  lemma EvalIntPrefixes(c: Context)
    ensures EvalInt(c, "017") == 15
    ensures EvalInt(c, "0x1F") == 31
  {
    var a := "017";
    EvalIntDigits(c, a);
    assert DigitRun(a, 3, 8) == [] && DigitRun(a, 2, 8) == "7" && DigitRun(a, 1, 8) == "17";
    assert DigitsValue("17", 8) == 15 by {
      assert "17"[..1] == "1" && "1"[..0] == "";
    }
    var h := "0x1F";
    EvalIntDigits(c, h);
    assert DigitRun(h, 4, 16) == [] && DigitRun(h, 3, 16) == "F" && DigitRun(h, 2, 16) == "1F";
    assert DigitsValue("1F", 16) == 31 by {
      assert "1F"[..1] == "1" && "1"[..0] == "";
    }
  }

  /** `08` is not octal, so it is read as decimal; blanks and a sign come
      before the digits. */
  lemma EvalIntDecimal(c: Context)
    ensures EvalInt(c, "08") == 8
    ensures EvalInt(c, " -12") == -12
  {
    var b := "08";
    EvalIntDigits(c, b);
    assert DigitRun(b, 2, 10) == [] && DigitRun(b, 1, 10) == "8" && DigitRun(b, 0, 10) == "08";
    assert "08"[..1] == "0" && "0"[..0] == "";
    var d := " -12";
    assert SkipBlanks(d, 0) == 1;
    assert DigitRun(d, 4, 10) == [] && DigitRun(d, 3, 10) == "2" && DigitRun(d, 2, 10) == "12";
    assert "12"[..1] == "1" && "1"[..0] == "";
  }

  /** A `$name` reference yields an Int variable's value, with the sign
      applied, and 0 for a variable of any other type or none at all. */
  lemma EvalIntVariable(c: Context, name: string)
    requires |name| <= NameMax && forall j :: 0 <= j < |name| ==> IsNameChar(name[j])
    ensures EvalInt(c, "$" + name) == (if GetVar(c, name).Some? && GetVar(c, name).value.IntValue? then GetVar(c, name).value.n else 0)
    ensures EvalInt(c, "-$" + name) == (if GetVar(c, name).Some? && GetVar(c, name).value.IntValue? then -GetVar(c, name).value.n else 0)
  {
    var s, t := "$" + name, "-$" + name;
    NameRunAll(s, 1);
    NameRunAll(t, 2);
    assert s[1..] == name && t[2..] == name;
    assert SkipBlanks(s, 0) == 0 && SkipBlanks(t, 0) == 0;
  }

  /** `script_eval_bool`: blank text is false, and the keywords mean what
      they say. */
  lemma EvalBoolBlank(c: Context, expr: string)
    requires forall k :: 0 <= k < |expr| ==> IsBlank(expr[k])
    ensures !EvalBool(c, expr)
  {
    SkipBlanksBounds(expr, 0);
  }

  lemma EvalBoolKeywords(c: Context)
    ensures EvalBool(c, "true") && EvalBool(c, "TRUE") && EvalBool(c, "1")
    ensures !EvalBool(c, "false") && !EvalBool(c, "FALSE") && !EvalBool(c, "0")
  {
    assert SkipBlanks("true", 0) == 0 && SkipBlanks("TRUE", 0) == 0 && SkipBlanks("1", 0) == 0;
    assert SkipBlanks("false", 0) == 0 && SkipBlanks("FALSE", 0) == 0 && SkipBlanks("0", 0) == 0;
  }

  /** Other text is decided by its integer value. */
  lemma EvalBoolNumber(c: Context, n: int)
    ensures EvalBool(c, IntToString(n)) <==> n != 0
  {
    var s := IntToString(n);
    var m: nat := if n < 0 then -n else n;
    NatToStringDigits(m);
    assert IsDigitIn(NatToString(m)[0], 10);
    assert s[0] == '-' || IsDigit(s[0]);
    assert SkipBlanks(s, 0) == 0 && s[0..] == s;
    EvalIntRoundTrip(c, n);
    assert s != "true" && s != "TRUE" && s != "false" && s != "FALSE";
  }

  /** `expr_eval_condition` is true exactly for text other than "" and "0"
      (a NULL pointer is false), so on a printed number it tests non-zero. */
  lemma EvalConditionNumber(n: int)
    ensures !EvalCondition(None)
    ensures EvalCondition(Some(IntToString(n))) <==> n != 0
  {
    var m: nat := if n < 0 then -n else n;
    NatToStringDigits(m);
    assert IntToString(0) == "0";
    if IntToString(n) == "0" {
      IntToStringInjective(n, 0);
    }
  }
  // ---------------------------------------------------------------------
  // Lines.

  /** Blanks from `i` up to a non-blank at `j` (or the end) are skipped
      exactly. */
  lemma {:induction false} SkipOver(s: string, i: nat, j: nat)
    requires i <= j <= |s| && forall k :: i <= k < j ==> IsBlank(s[k])
    requires j == |s| || !IsBlank(s[j])
    ensures SkipBlanks(s, i) == j
    decreases j - i
  {
    if i < j { SkipOver(s, i + 1, j); }
  }

  lemma StatementValid(c: Context, p: string)
    requires ValidContext(c)
    ensures ValidContext(Statement(c, p).0)
  {
    if IsAssignment(p) {
      var e := IndexOf(p, '=');
      SetVarValid(c, p[..TrimEnd(p, e)], AssignedValue(c, p[SkipBlanks(p, e + 1)..]));
    }
  }

  lemma LabelledValid(c: Context, p: string, colon: nat)
    requires ValidContext(c) && colon < |p|
    ensures ValidContext(Labelled(c, p, colon).0)
  {
    var c1 := if colon < ScriptVarNameLen then CreateLabel(c, p[..colon], c.lineNum).0 else c;
    if colon < ScriptVarNameLen { CreateLabelValid(c, p[..colon], c.lineNum); }
    var k := SkipBlanks(p, colon + 1);
    if k < |p| { StatementValid(c1, p[k..]); }
  }

  /** Every line keeps the context valid. */
  lemma StepValid(c: Context, line: string)
    requires ValidContext(c)
    ensures ValidContext(Step(c, line).0)
  {
    var i := SkipBlanks(line, 0);
    if i < |line| && line[i] != '#' {
      var p := line[i..];
      var colon := IndexOf(p, ':');
      if colon > 0 {
        LabelledValid(c, p, colon);
      } else {
        StatementValid(c, p);
      }
    }
  }

  /** Every run keeps the context valid. */
  lemma RunValid(c: Context, lines: seq<string>)
    requires ValidContext(c)
    ensures ValidContext(RunLines(c, lines))
  {
    forall d: Context, l: string | StacksOk(d) && d.running && ValidContext(d)
      ensures ValidContext(Step(d, l).0)
    {
      StepValid(d, l);
    }
    RunKeeps(Step, ValidContext, c, lines);
  }

  /** `script_execute` keeps the context valid and leaves it not running,
      and its result is the final `exit_code`. */
  lemma ExecuteValid(c: Context, script: string)
    requires ValidContext(c)
    ensures ValidContext(Execute(c, script).0)
    ensures !Execute(c, script).0.running && Execute(c, script).1 == Execute(c, script).0.exitCode
  {
    RunValid(c.(running := true, lineNum := 0), Segments(script));
  }

  /** Blank lines and comments do nothing. */
  lemma CommentLine(c: Context, blanks: string, rest: string)
    requires StacksOk(c) && forall k :: 0 <= k < |blanks| ==> IsBlank(blanks[k])
    ensures Step(c, blanks) == (c, Ok)
    ensures Step(c, blanks + "#" + rest) == (c, Ok)
  {
    SkipOver(blanks, 0, |blanks|);
    var l := blanks + "#" + rest;
    assert l[|blanks|] == '#';
    SkipOver(l, 0, |blanks|);
  }

  lemma NotInConcat(a: string, b: string, ch: char)
    requires ch !in a && ch !in b
    ensures ch !in a + b
  {
    assert forall k :: 0 <= k < |a + b| ==> (a + b)[k] == if k < |a| then a[k] else b[k - |a|];
  }

  /** A line that starts with neither a blank nor `#` and has no `:` is a
      statement. */
  lemma StepPlain(c: Context, l: string)
    requires StacksOk(c) && l != [] && !IsBlank(l[0]) && l[0] != '#' && ':' !in l
    ensures Step(c, l) == Statement(c, l)
  {
    SkipOver(l, 0, 0);
    assert l[0..] == l;
  }

  /** A line whose first `:` is at `n > 0` carries a label. */
  lemma StepLabelled(c: Context, l: string, n: nat)
    requires StacksOk(c) && l != [] && !IsBlank(l[0]) && l[0] != '#'
    requires 0 < n < |l| && l[n] == ':' && ':' !in l[..n]
    ensures Step(c, l) == Labelled(c, l, n)
  {
    SkipOver(l, 0, 0);
    assert l[0..] == l;
    IndexOfFirst(l, ':', n);
  }

  /** Without an `=` a statement is a keyword line. */
  lemma StatementKeyword(c: Context, p: string)
    requires StacksOk(c) && '=' !in p
    ensures Statement(c, p) == Keyword(c, p)
  {
  }

  /** Text before a `:` that is not the first character, if shorter than
      64 characters, is recorded as a label at the current line number, and
      the rest of the line is processed as a statement. */
  lemma LabelLine(c: Context, name: string, stmt: string)
    requires StacksOk(c)
    requires name != [] && !IsBlank(name[0]) && name[0] != '#' && ':' !in name && |name| < ScriptVarNameLen
    requires stmt != [] && !IsBlank(stmt[0])
    ensures Step(c, name + ":") == (CreateLabel(c, name, c.lineNum).0, Ok)
    ensures Step(c, name + ": " + stmt) == Statement(CreateLabel(c, name, c.lineNum).0, stmt)
  {
    var n := |name|;
    var a := name + ":";
    assert a[..n] == name;
    StepLabelled(c, a, n);
    SkipOver(a, n + 1, |a|);
    var b := name + ": " + stmt;
    assert b[..n] == name && b[n] == ':' && b[n + 1] == ' ' && b[n + 2] == stmt[0];
    StepLabelled(c, b, n);
    SkipOver(b, n + 1, n + 2);
    assert b[n + 2..] == stmt;
  }

  /** A recorded label is found at the line it was recorded at. */
  lemma LabelRecorded(c: Context, name: string, line: int)
    requires ValidContext(c) && |name| <= NameMax
    requires FindIn(c.labels, name) >= 0 || c.labelCount < ScriptMaxLabels
    ensures Lookup(CreateLabel(c, name, line).0.labels, name) == Some(line)
  {
    UpsertFails(c.labels, name, line);
    UpsertLookup(c.labels, name, line);
  }

  /** The statement `name = text`, for a name without `:` or `=` whose
      last character is neither a blank nor `!`, `<` or `>`, assigns the
      value of `text`. */
  lemma StatementAssign(c: Context, name: string, text: string)
    requires StacksOk(c) && name != [] && |name| < ScriptVarNameLen && '=' !in name
    requires !IsBlank(name[|name| - 1]) && name[|name| - 1] !in "!<>"
    requires text == [] || !IsBlank(text[0])
    ensures Statement(c, name + " = " + text) == (SetVar(c, name, AssignedValue(c, text)).0, Ok)
  {
    var l := name + " = " + text;
    var n := |name|;
    assert '=' !in l[..n + 1] by {
      assert forall k :: 0 <= k < n + 1 ==> l[..n + 1][k] == if k < n then name[k] else ' ';
    }
    IndexOfFirst(l, '=', n + 1);
    assert TrimEnd(l, n + 1) == n;
    assert l[..n] == name;
    SkipOver(l, n + 2, n + 3);
    assert l[n + 3..] == text;
  }

  /** `name = text` assigns, a number when the text looks like one and the
      text otherwise; the name may contain blanks. */
  lemma AssignLine(c: Context, name: string, text: string)
    requires StacksOk(c) && name != [] && |name| < ScriptVarNameLen
    requires !IsBlank(name[0]) && name[0] != '#' && ':' !in name && '=' !in name
    requires !IsBlank(name[|name| - 1]) && name[|name| - 1] !in "!<>"
    requires ':' !in text && (text == [] || !IsBlank(text[0]))
    ensures Step(c, name + " = " + text) == (SetVar(c, name, AssignedValue(c, text)).0, Ok)
  {
    var l := name + " = " + text;
    NotInConcat(name, " = ", ':');
    NotInConcat(name + " = ", text, ':');
    assert l[0] == name[0];
    StepPlain(c, l);
    StatementAssign(c, name, text);
  }

  /** The assignment check comes before the keywords: `if a = 1` sets the
      variable named `if a` to 1. */
  lemma AssignmentFirst(c: Context)
    requires StacksOk(c)
    ensures Step(c, "if a = 1") == (SetVar(c, "if a", IntValue(1)).0, Ok)
  {
    AssignLine(c, "if a", "1");
    assert "if a" + " = " + "1" == "if a = 1";
    EvalIntRoundTrip(c, 1);
    assert IntToString(1) == "1";
  }

  lemma ControlKeyword(c: Context, kw: string, e: string)
    requires StacksOk(c) && kw in ["if ", "while ", "for "]
    ensures Keyword(c, kw + e) == (c, Ok)
  {
    assert (kw + e)[..|kw|] == kw;
  }

  lemma ControlLine(c: Context, kw: string, e: string)
    requires StacksOk(c) && kw in ["if ", "while ", "for "] && ':' !in e && '=' !in e
    ensures Step(c, kw + e) == (c, Ok)
  {
    var l := kw + e;
    NotInConcat(kw, e, ':');
    NotInConcat(kw, e, '=');
    assert l[0] == kw[0];
    StepPlain(c, l);
    StatementKeyword(c, l);
    ControlKeyword(c, kw, e);
  }

  /** `if`, `while` and `for` lines evaluate nothing that lasts. */
  lemma ControlLines(c: Context, e: string)
    requires StacksOk(c) && ':' !in e && '=' !in e
    ensures Step(c, "if " + e) == (c, Ok)
    ensures Step(c, "while " + e) == (c, Ok)
    ensures Step(c, "for " + e) == (c, Ok)
  {
    ControlLine(c, "if ", e);
    ControlLine(c, "while ", e);
    ControlLine(c, "for ", e);
  }

  /** With an empty loop stack `break` fails. */
  lemma BreakFails(c: Context, l: string)
    requires ValidContext(c) && l == "break"
    ensures Step(c, l) == (c, SysErr)
  {
    StepPlain(c, l);
    StatementKeyword(c, l);
  }

  /** With an empty loop stack `continue` fails. */
  lemma ContinueFails(c: Context, l: string)
    requires ValidContext(c) && l == "continue"
    ensures Step(c, l) == (c, SysErr)
  {
    StepPlain(c, l);
    StatementKeyword(c, l);
  }

  /** `%d` prints only digits and a minus sign, and at least one digit. */
  lemma IntToStringChars(n: int)
    ensures IntToString(n) != [] && IntToString(n)[0] != ' ' && IntToString(n)[0] != '\t'
    ensures ':' !in IntToString(n) && '=' !in IntToString(n)
  {
    var m: nat := if n < 0 then -n else n;
    NatToStringDigits(m);
    var ds := NatToString(m);
    assert forall k :: 0 <= k < |ds| ==> IsDigit(ds[k]) by {
      forall k | 0 <= k < |ds| ensures IsDigit(ds[k]) { assert IsDigitIn(ds[k], 10); }
    }
    assert forall k :: 0 <= k < |IntToString(n)| ==> IntToString(n)[k] == '-' || IsDigit(IntToString(n)[k]);
  }

  lemma KeywordReturn(c: Context, e: string)
    requires StacksOk(c) && e != [] && !IsBlank(e[0])
    ensures Keyword(c, "return " + e) == Return(c, EvalInt(c, e))
  {
    var l := "return " + e;
    assert l[..6] == "return" && l[7] == e[0];
    assert l[..3][0] == 'r' && l[..4][0] == 'r' && l[..6][0] == 'r';
    assert !StartsWith(l, "if ") && !StartsWith(l, "while ") && !StartsWith(l, "for ");
    assert l != "break" && l != "continue";
    SkipOver(l, 6, 7);
    assert l[7..] == e;
  }

  /** `return e` stops the script with the value of `e` as exit code. */
  lemma ReturnExprLine(c: Context, e: string)
    requires StacksOk(c) && e != [] && !IsBlank(e[0]) && ':' !in e && '=' !in e
    ensures Step(c, "return " + e) == (c.(exitCode := EvalInt(c, e), running := false), Ok)
  {
    var l := "return " + e;
    NotInConcat("return ", e, ':');
    NotInConcat("return ", e, '=');
    StepPlain(c, l);
    StatementKeyword(c, l);
    KeywordReturn(c, e);
  }

  /** `return n` stops the script with exit code `n`. */
  lemma ReturnLine(c: Context, n: int)
    requires StacksOk(c)
    ensures Step(c, "return " + IntToString(n)) == (c.(exitCode := n, running := false), Ok)
  {
    IntToStringChars(n);
    ReturnExprLine(c, IntToString(n));
    EvalIntRoundTrip(c, n);
  }

  /** A bare `return` stops the script with exit code 0. */
  lemma ReturnBare(c: Context, l: string)
    requires StacksOk(c) && l == "return"
    ensures Step(c, l) == (c.(exitCode := 0, running := false), Ok)
  {
    StepPlain(c, l);
    StatementKeyword(c, l);
    SkipOver(l, 6, 6);
  }

  lemma KeywordGoto(c: Context, target: string)
    requires StacksOk(c) && target != [] && !IsBlank(target[0])
    ensures Keyword(c, "goto " + target) == GotoLabel(c, target)
  {
    var l := "goto " + target;
    assert l[..5] == "goto ";
    assert !StartsWith(l, "if ") && !StartsWith(l, "while ") && !StartsWith(l, "for ") && !StartsWith(l, "return");
    assert l != "break" && l != "continue";
    SkipOver(l, 5, 5);
    assert l[5..] == target;
  }

  /** `goto L` looks the label up and only moves `line_num`. */
  lemma GotoLine(c: Context, target: string)
    requires StacksOk(c)
    requires target != [] && !IsBlank(target[0]) && ':' !in target && '=' !in target
    ensures FindIn(c.labels, target) < 0 ==> Step(c, "goto " + target) == (c, SysErr)
    ensures FindIn(c.labels, target) >= 0 ==>
              Step(c, "goto " + target) == (c.(lineNum := c.labels[FindIn(c.labels, target)].val), Ok)
  {
    var l := "goto " + target;
    NotInConcat("goto ", target, ':');
    NotInConcat("goto ", target, '=');
    StepPlain(c, l);
    StatementKeyword(c, l);
    KeywordGoto(c, target);
  }

  // ---------------------------------------------------------------------
  // Scripts.

  /** Every line of `lines` runs with status OK and the script is still
      running afterwards. */
  ghost predicate Completes(step: (Context, string) --> (Context, int), c: Context, lines: seq<string>)
    requires IsStep(step) && StacksOk(c)
    decreases |lines|
  {
    c.running && (lines == [] ||
      var r := step(c.(lineNum := c.lineNum + 1), lines[0]);
      r.1 == Ok && Completes(step, r.0, lines[1..]))
  }

  /** A property the step keeps on running contexts, and that counting a
      line keeps, holds at the end of every run. */
  lemma {:induction false} RunKeeps(step: (Context, string) --> (Context, int), inv: Context -> bool,
                                    c: Context, lines: seq<string>)
    requires IsStep(step) && StacksOk(c) && inv(c)
    requires forall d: Context, l: string :: StacksOk(d) && d.running && inv(d) ==> inv(step(d, l).0)
    requires forall d: Context :: d.running && inv(d) ==> inv(d.(lineNum := d.lineNum + 1))
    ensures inv(Run(step, c, lines))
    decreases |lines|
  {
    if lines != [] && c.running {
      var r := step(c.(lineNum := c.lineNum + 1), lines[0]);
      if r.1 == Ok { RunKeeps(step, inv, r.0, lines[1..]); }
    }
  }

  /** Lines run strictly in textual order: the lines after `xs` run exactly
      when all of `xs` completed, starting from where `xs` left off. */
  lemma {:induction false} RunAppend(step: (Context, string) --> (Context, int), c: Context, xs: seq<string>, ys: seq<string>)
    requires IsStep(step) && StacksOk(c)
    ensures Run(step, c, xs + ys) == if Completes(step, c, xs) then Run(step, Run(step, c, xs), ys) else Run(step, c, xs)
    decreases |xs|
  {
    if xs == [] {
      assert xs + ys == ys;
    } else if c.running {
      var r := step(c.(lineNum := c.lineNum + 1), xs[0]);
      assert (xs + ys)[0] == xs[0] && (xs + ys)[1..] == xs[1..] + ys;
      if r.1 == Ok { RunAppend(step, r.0, xs[1..], ys); }
    }
  }

  lemma {:induction false} CompletesRunning(step: (Context, string) --> (Context, int), c: Context, xs: seq<string>)
    requires IsStep(step) && StacksOk(c)
    ensures Completes(step, c, xs) ==> Run(step, c, xs).running
    decreases |xs|
  {
    if xs != [] && c.running {
      var r := step(c.(lineNum := c.lineNum + 1), xs[0]);
      if r.1 == Ok { CompletesRunning(step, r.0, xs[1..]); }
    }
  }

  /** A line that fails or stops the script, whenever it is reached, ends
      the run: nothing after it executes. */
  lemma RunStops(step: (Context, string) --> (Context, int), inv: Context -> bool,
                 c: Context, xs: seq<string>, l: string, ys: seq<string>)
    requires IsStep(step) && StacksOk(c) && inv(c)
    requires forall d: Context, l: string :: StacksOk(d) && d.running && inv(d) ==> inv(step(d, l).0)
    requires forall d: Context :: d.running && inv(d) ==> inv(d.(lineNum := d.lineNum + 1))
    requires forall d: Context :: StacksOk(d) && d.running && inv(d) ==>
               step(d.(lineNum := d.lineNum + 1), l).1 != Ok || !step(d.(lineNum := d.lineNum + 1), l).0.running
    ensures Run(step, c, xs + [l] + ys) == Run(step, c, xs + [l])
  {
    assert xs + [l] + ys == xs + ([l] + ys);
    RunAppend(step, c, xs, [l] + ys);
    RunAppend(step, c, xs, [l]);
    RunKeeps(step, inv, c, xs);
    CompletesRunning(step, c, xs);
    assert ([l] + ys)[0] == l && ([l] + ys)[1..] == ys && [l][1..] == [];
  }

  /** Lines run in textual order (`RunAppend` for `execute_line`). */
  lemma LinesInOrder(c: Context, xs: seq<string>, ys: seq<string>)
    requires StacksOk(c)
    ensures RunLines(c, xs + ys) == if Completes(Step, c, xs) then RunLines(RunLines(c, xs), ys) else RunLines(c, xs)
  {
    RunAppend(Step, c, xs, ys);
  }

  /** A `break` ends the run: nothing after it executes. */
  lemma BreakEndsRun(c: Context, xs: seq<string>, ys: seq<string>)
    requires ValidContext(c)
    ensures RunLines(c, xs + ["break"] + ys) == RunLines(c, xs + ["break"])
  {
    forall d: Context, l: string | StacksOk(d) && d.running && ValidContext(d)
      ensures ValidContext(Step(d, l).0)
    {
      StepValid(d, l);
    }
    forall d: Context | StacksOk(d) && d.running && ValidContext(d)
      ensures Step(d.(lineNum := d.lineNum + 1), "break").1 != Ok
    {
      BreakFails(d.(lineNum := d.lineNum + 1), "break");
    }
    RunStops(Step, ValidContext, c, xs, "break", ys);
  }

  /** A `return` ends the run: nothing after it executes. */
  lemma ReturnEndsRun(c: Context, xs: seq<string>, n: int, ys: seq<string>)
    requires StacksOk(c)
    ensures RunLines(c, xs + ["return " + IntToString(n)] + ys) == RunLines(c, xs + ["return " + IntToString(n)])
  {
    var l := "return " + IntToString(n);
    forall d: Context | StacksOk(d) && d.running
      ensures !Step(d.(lineNum := d.lineNum + 1), l).0.running
    {
      ReturnLine(d.(lineNum := d.lineNum + 1), n);
    }
    RunStops(Step, _ => true, c, xs, l, ys);
  }

  /** After lines that complete, the next line runs on the context they
      left: whatever that line guarantees holds at the end. */
  lemma RunLast(step: (Context, string) --> (Context, int), p: Context -> bool,
                c: Context, xs: seq<string>, l: string)
    requires IsStep(step) && StacksOk(c) && Completes(step, c, xs)
    requires forall d: Context :: StacksOk(d) ==> p(step(d, l).0)
    ensures p(Run(step, c, xs + [l]))
  {
    RunAppend(step, c, xs, [l]);
    CompletesRunning(step, c, xs);
    assert [l][1..] == [];
  }

  /** A `return` that is reached sets the exit code. */
  lemma ReturnSetsExitCode(c: Context, xs: seq<string>, n: int)
    requires StacksOk(c) && Completes(Step, c, xs)
    ensures RunLines(c, xs + ["return " + IntToString(n)]).exitCode == n
  {
    var l := "return " + IntToString(n);
    forall d: Context | StacksOk(d) ensures Step(d, l).0.exitCode == n { ReturnLine(d, n); }
    RunLast(Step, (d: Context) => d.exitCode == n, c, xs, l);
  }

  /** `goto` does not jump: it overwrites `line_num`, and the next line in
      the text runs next. */
  lemma GotoDoesNotJump(c: Context, target: string, rest: seq<string>)
    requires StacksOk(c) && c.running
    requires target != [] && !IsBlank(target[0]) && ':' !in target && '=' !in target
    requires FindIn(c.labels, target) >= 0
    ensures RunLines(c, ["goto " + target] + rest) == RunLines(c.(lineNum := c.labels[FindIn(c.labels, target)].val), rest)
  {
    var c1 := c.(lineNum := c.lineNum + 1);
    GotoLine(c1, target);
    RunFirst(Step, c, "goto " + target, rest, c.(lineNum := c.labels[FindIn(c.labels, target)].val));
  }

  /** A first line that runs with status OK hands its context to the
      rest. */
  lemma RunFirst(step: (Context, string) --> (Context, int), c: Context, l: string, rest: seq<string>, e: Context)
    requires IsStep(step) && StacksOk(c) && c.running
    requires step(c.(lineNum := c.lineNum + 1), l) == (e, Ok)
    ensures Run(step, c, [l] + rest) == Run(step, e, rest)
  {
    assert ([l] + rest)[0] == l && ([l] + rest)[1..] == rest;
  }

  /** One turn of the loop: the first line runs on the counted context;
      the rest run only after an OK status. */
  lemma RunCons(step: (Context, string) --> (Context, int), c: Context, lines: seq<string>)
    requires IsStep(step) && StacksOk(c) && c.running && lines != []
    ensures var r := step(c.(lineNum := c.lineNum + 1), lines[0]);
            Run(step, c, lines) == if r.1 != Ok then r.0 else Run(step, r.0, lines[1..])
  {
  }

  /** `RunCons` for `execute_line`, the first line having left `e` with
      status `st`. */
  lemma RunLinesCons(c: Context, lines: seq<string>, e: Context, st: int)
    requires StacksOk(c) && c.running && lines != []
    requires Step(c.(lineNum := c.lineNum + 1), lines[0]) == (e, st)
    ensures RunLines(c, lines) == if st != Ok then e else RunLines(e, lines[1..])
  {
    RunCons(Step, c, lines);
  }

  /** A statement that `execute_line` runs as `goto`: not an assignment,
      and starting with `goto `. */
  predicate GotoStatement(p: string)
  {
    !IsAssignment(p) && StartsWith(p, "goto ")
  }

  /** A line whose statement, after an optional label, is a `goto`. */
  predicate IsGotoLine(line: string)
  {
    var i := SkipBlanks(line, 0);
    i < |line| && line[i] != '#' &&
    var p := line[i..];
    var colon := IndexOf(p, ':');
    if colon > 0 then
      var k := SkipBlanks(p, colon + 1);
      k < |p| && GotoStatement(p[k..])
    else GotoStatement(p)
  }

  /** With the loop stack empty, a statement other than `goto` leaves
      `line_num` alone. */
  lemma StatementLine(c: Context, p: string)
    requires StacksOk(c) && c.loopSp == 0 && !GotoStatement(p)
    ensures Statement(c, p).0.lineNum == c.lineNum
  {
  }

  /** With the loop stack empty, only a `goto` line changes `line_num`:
      blank, comment, label, assignment and every other keyword line keep
      it. */
  lemma StepLine(c: Context, line: string)
    requires StacksOk(c) && c.loopSp == 0 && !IsGotoLine(line)
    ensures Step(c, line).0.lineNum == c.lineNum
  {
    var i := SkipBlanks(line, 0);
    if i < |line| && line[i] != '#' {
      var p := line[i..];
      var colon := IndexOf(p, ':');
      if colon > 0 {
        LabelledLine(c, p, colon);
      } else {
        StatementLine(c, p);
      }
    }
  }

  /** Recording a label leaves `line_num` alone, and so does the statement
      after it unless it is a `goto`. */
  lemma LabelledLine(c: Context, p: string, colon: nat)
    requires StacksOk(c) && c.loopSp == 0 && 0 < colon < |p|
    requires var k := SkipBlanks(p, colon + 1); k < |p| ==> !GotoStatement(p[k..])
    ensures Labelled(c, p, colon).0.lineNum == c.lineNum
  {
    var c1 := if colon < ScriptVarNameLen then CreateLabel(c, p[..colon], c.lineNum).0 else c;
    assert c1.lineNum == c.lineNum && c1.loopSp == 0 && StacksOk(c1);
    var k := SkipBlanks(p, colon + 1);
    if k < |p| { StatementLine(c1, p[k..]); }
  }

  /** The step leaves `line_num` alone on line `l` from every context whose
      loop stack pointer is `sp`. */
  ghost predicate KeepsLineNum(step: (Context, string) --> (Context, int), l: string, sp: int)
    requires IsStep(step)
  {
    forall d: Context :: StacksOk(d) && d.loopSp == sp ==> step(d, l).0.lineNum == d.lineNum
  }

  /** A run of lines that completes, each of which leaves `line_num`
      alone, ends with `line_num` advanced by exactly the number of
      lines. */
  lemma {:induction false} RunCounts(step: (Context, string) --> (Context, int), c: Context, lines: seq<string>)
    requires IsStep(step) && StacksOk(c) && Completes(step, c, lines)
    requires forall k :: 0 <= k < |lines| ==> KeepsLineNum(step, lines[k], c.loopSp)
    ensures Run(step, c, lines).lineNum == c.lineNum + |lines|
    decreases |lines|
  {
    if lines != [] {
      var c1 := c.(lineNum := c.lineNum + 1);
      assert KeepsLineNum(step, lines[0], c.loopSp);
      var r := step(c1, lines[0]);
      assert r.0.lineNum == c1.lineNum && r.0.loopSp == c.loopSp;
      assert forall k :: 0 <= k < |lines[1..]| ==> lines[1..][k] == lines[k + 1];
      RunCounts(step, r.0, lines[1..]);
    }
  }

  /** `line_num` counts the lines run: when every line completes and none
      is a `goto`, the script's loop leaves `line_num` advanced by the
      number of lines. */
  lemma LineCount(c: Context, lines: seq<string>)
    requires StacksOk(c) && c.loopSp == 0 && Completes(Step, c, lines)
    requires forall k :: 0 <= k < |lines| ==> !IsGotoLine(lines[k])
    ensures RunLines(c, lines).lineNum == c.lineNum + |lines|
  {
    assert IsStep(Step);
    forall k | 0 <= k < |lines|
      ensures KeepsLineNum(Step, lines[k], c.loopSp)
    {
      forall d: Context | StacksOk(d) && d.loopSp == c.loopSp
        ensures Step(d, lines[k]).0.lineNum == d.lineNum
      {
        StepLine(d, lines[k]);
      }
    }
    RunCounts(Step, c, lines);
  }

  /** `line_num` on a whole script: a script none of whose lines is a
      `goto`, and all of whose lines complete, ends with `line_num` equal
      to its number of lines. */
  lemma ScriptLineCount(c: Context, script: string)
    requires ValidContext(c)
    requires Completes(Step, c.(running := true, lineNum := 0), Segments(script))
    requires forall k :: 0 <= k < |Segments(script)| ==> !IsGotoLine(Segments(script)[k])
    ensures RunLines(c.(running := true, lineNum := 0), Segments(script)).lineNum == |Segments(script)|
  {
    LineCount(c.(running := true, lineNum := 0), Segments(script));
  }

  lemma KeywordExitCode(c: Context, p: string)
    requires StacksOk(c)
    ensures Keyword(c, p).0.exitCode != c.exitCode ==> !Keyword(c, p).0.running
  {
  }

  lemma StatementExitCode(c: Context, p: string)
    requires StacksOk(c)
    ensures Statement(c, p).0.exitCode != c.exitCode ==> !Statement(c, p).0.running
  {
    if !IsAssignment(p) { KeywordExitCode(c, p); }
  }

  lemma LabelledExitCode(c: Context, p: string, colon: nat)
    requires StacksOk(c) && colon < |p|
    ensures Labelled(c, p, colon).0.exitCode != c.exitCode ==> !Labelled(c, p, colon).0.running
  {
    var c1 := if colon < ScriptVarNameLen then CreateLabel(c, p[..colon], c.lineNum).0 else c;
    var k := SkipBlanks(p, colon + 1);
    if k < |p| { StatementExitCode(c1, p[k..]); }
  }

  /** Only `return` changes the exit code, and it stops the script. */
  lemma StepExitCode(c: Context, line: string)
    requires StacksOk(c)
    ensures Step(c, line).0.exitCode != c.exitCode ==> !Step(c, line).0.running
  {
    var i := SkipBlanks(line, 0);
    if i < |line| && line[i] != '#' {
      var p := line[i..];
      var colon := IndexOf(p, ':');
      if colon > 0 {
        LabelledExitCode(c, p, colon);
      } else {
        StatementExitCode(c, p);
      }
    }
  }

  /** A run whose exit code changed stopped because a `return` ran. */
  lemma RunExitCode(c: Context, lines: seq<string>)
    requires StacksOk(c)
    ensures RunLines(c, lines).exitCode != c.exitCode ==> !RunLines(c, lines).running
  {
    var inv := (d: Context) => d.exitCode != c.exitCode ==> !d.running;
    forall d: Context, l: string | StacksOk(d) && d.running && inv(d)
      ensures inv(Step(d, l).0)
    {
      StepExitCode(d, l);
    }
    RunKeeps(Step, inv, c, lines);
  }

  /** So `script_execute` returns the exit code it found unless a
      `return` line ran. */
  lemma ExecuteExitCode(c: Context, script: string)
    requires StacksOk(c)
    ensures Execute(c, script).1 != c.exitCode ==>
              !RunLines(c.(running := true, lineNum := 0), Segments(script)).running
  {
    RunExitCode(c.(running := true, lineNum := 0), Segments(script));
  }

  /** The pieces are non-empty and free of newlines. */
  lemma {:induction false} SegmentsShape(s: string, cur: string)
    requires '\n' !in cur
    ensures forall x :: x in SegmentsFrom(s, cur) ==> x != [] && '\n' !in x
    decreases |s|
  {
    if s != [] {
      if s[0] == '\n' {
        SegmentsShape(s[1..], []);
      } else {
        SegmentsShape(s[1..], cur + [s[0]]);
      }
    }
  }

  /** A newline-free run is collected whole. */
  lemma {:induction false} SegmentsRun(l: string, t: string, cur: string)
    requires '\n' !in l
    ensures SegmentsFrom(l + t, cur) == SegmentsFrom(t, cur + l)
    decreases |l|
  {
    if l == [] {
      assert l + t == t && cur + l == cur;
    } else {
      assert (l + t)[0] == l[0] && (l + t)[1..] == l[1..] + t;
      SegmentsRun(l[1..], t, cur + [l[0]]);
      assert cur + [l[0]] + l[1..] == cur + l;
    }
  }

  /** Splitting at newlines undoes joining non-empty, newline-free lines. */
  lemma {:induction false} SegmentsJoin(ls: seq<string>)
    requires forall k :: 0 <= k < |ls| ==> ls[k] != [] && '\n' !in ls[k]
    ensures Segments(JoinLines(ls)) == ls
    decreases |ls|
  {
    if |ls| == 1 {
      SegmentsRun(ls[0], [], []);
      assert ls[0] + [] == ls[0] && [] + ls[0] == ls[0];
    } else if |ls| > 1 {
      var rest := JoinLines(ls[1..]);
      SegmentsRun(ls[0], "\n" + rest, []);
      assert ls[0] + "\n" + rest == ls[0] + ("\n" + rest);
      assert [] + ls[0] == ls[0];
      assert ("\n" + rest)[1..] == rest;
      SegmentsJoin(ls[1..]);
      assert ls == [ls[0]] + ls[1..];
    }
  }
  // ---------------------------------------------------------------------
  // Function calls.

  lemma {:induction false} NatToStringShort(m: nat)
    requires m < 1000
    ensures 1 <= |NatToString(m)| <= 3
  {
    if m >= 10 { NatToStringShort(m / 10); }
  }

  /** Distinct parameter positions have distinct variable names. */
  lemma ArgNameInjective(a: nat, b: nat)
    ensures ArgName(a) == ArgName(b) ==> a == b
  {
    if ArgName(a) == ArgName(b) {
      assert ArgName(a)[3..] == NatToString(a) && ArgName(b)[3..] == NatToString(b);
      assert IntToString(a) == NatToString(a) && IntToString(b) == NatToString(b);
      IntToStringInjective(a, b);
    }
  }

  /** No variable is read-only (nothing in the interpreter sets the flag). */
  ghost predicate NoReadonly(c: Context)
  {
    forall i :: 0 <= i < |c.vars| ==> !c.vars[i].val.readonly
  }

  lemma {:induction false} BindArgsValid(c: Context, args: seq<string>, k: nat, n: nat)
    requires ValidContext(c) && n <= |args|
    ensures ValidContext(BindArgs(c, args, k, n))
    decreases n - k
  {
    if k < n {
      SetVarValid(c, ArgName(k), StringValue(args[k]));
      BindArgsValid(SetVar(c, ArgName(k), StringValue(args[k])).0, args, k + 1, n);
    }
  }

  /** Binding parameters leaves every other variable alone. */
  lemma {:induction false} BindArgsKeeps(c: Context, args: seq<string>, k: nat, n: nat, other: string)
    requires n <= |args|
    requires forall j :: k <= j < n ==> other != ArgName(j) && other != Truncate(ArgName(j), NameMax)
    ensures GetVar(BindArgs(c, args, k, n), other) == GetVar(c, other)
    decreases n - k
  {
    if k < n {
      SetVarFrame(c, ArgName(k), StringValue(args[k]), other);
      BindArgsKeeps(SetVar(c, ArgName(k), StringValue(args[k])).0, args, k + 1, n, other);
    }
  }

  /** With room in the table and no read-only variable, `arg<j>` holds the
      `j`-th argument, cut to 255 characters, for every bound `j`. */
  lemma {:induction false} BindArgsBinds(c: Context, args: seq<string>, k: nat, n: nat)
    requires ValidContext(c) && NoReadonly(c) && k <= n <= |args| && n <= ScriptMaxVars
    requires c.varCount + (n - k) <= ScriptMaxVars
    ensures forall j :: k <= j < n ==>
              GetVar(BindArgs(c, args, k, n), ArgName(j)) == Some(StringValue(Truncate(args[j], ValMax)))
    decreases n - k
  {
    if k < n {
      var v := StringValue(args[k]);
      var c1 := SetVar(c, ArgName(k), v).0;
      NatToStringShort(k);
      CountBound(c.vars);
      SetVarStores(c, ArgName(k), v);
      SetVarValid(c, ArgName(k), v);
      assert NoReadonly(c1);
      BindArgsBinds(c1, args, k + 1, n);
      forall j | k + 1 <= j < n
        ensures ArgName(k) != ArgName(j) && ArgName(k) != Truncate(ArgName(j), NameMax)
      {
        NatToStringShort(j);
        ArgNameInjective(k, j);
      }
      BindArgsKeeps(c1, args, k + 1, n, ArgName(k));
    }
  }

  /** `script_call_func` fails with SYSERR, changing nothing, for an
      unknown function or a full call stack. */
  lemma CallFuncErrors(c: Context, name: string, args: seq<string>)
    requires StacksOk(c) && |c.callStack| == ScriptMaxStack
    ensures FindIn(c.funcs, name) < 0 ==> CallFunc(c, name, args) == (c, SysErr)
    ensures c.callSp >= ScriptMaxStack ==> CallFunc(c, name, args) == (c, SysErr)
  {
  }

  /** A call keeps the context valid and restores the caller's `line_num`
      and call stack pointer; a body runs to its end and the result is its
      exit code, and a function without a body reports SYSERR. */
  lemma CallFuncRestores(c: Context, name: string, args: seq<string>)
    requires ValidContext(c) && FindIn(c.funcs, name) >= 0 && c.callSp < ScriptMaxStack
    ensures ValidContext(CallFunc(c, name, args).0)
    ensures CallFunc(c, name, args).0.callSp == c.callSp && CallFunc(c, name, args).0.lineNum == c.lineNum
    ensures CallFunc(c, name, args).0.funcs == c.funcs
    ensures c.funcs[FindIn(c.funcs, name)].val.body.None? ==> CallFunc(c, name, args).1 == SysErr
    ensures c.funcs[FindIn(c.funcs, name)].val.body.Some? ==>
              !CallFunc(c, name, args).0.running && CallFunc(c, name, args).1 == CallFunc(c, name, args).0.exitCode
  {
    var i := FindIn(c.funcs, name);
    var f := c.funcs[i].val;
    var n := if f.numParams < 0 then 0 else Min(f.numParams, |args|);
    var c1 := PushFrame(c);
    BindArgsValid(c1, args, 0, n);
    var c2 := BindArgs(c1, args, 0, n);
    assert c2.callSp == c.callSp + 1 && c2.callStack[c.callSp] == c.lineNum && c2.funcs == c.funcs;
    var r := if f.body.Some? then Execute(c2, f.body.value) else (c2, SysErr);
    if f.body.Some? {
      ExecuteValid(c2, f.body.value);
    }
    assert ValidContext(r.0) && r.0.callSp == c2.callSp && r.0.callStack == c2.callStack && r.0.funcs == c.funcs;
    assert CallFunc(c, name, args) == (PopFrame(r.0), r.1);
  }
  // ---------------------------------------------------------------------
  // A whole script.

  lemma AssignFive(c: Context)
    requires StacksOk(c) && !Refused(c, "x")
    ensures Step(c, "x = 5") == (SetVar(c, "x", IntValue(5)).0, Ok)
    ensures GetVar(SetVar(c, "x", IntValue(5)).0, "x") == Some(IntValue(5))
  {
    assert "x" + " = " + "5" == "x = 5";
    AssignLine(c, "x", "5");
    assert NatToString(5) == "5";
    EvalIntNatural(c, 5);
    assert AssignedValue(c, "5") == IntValue(5);
    SetVarStores(c, "x", IntValue(5));
  }

  lemma ReturnX(c: Context)
    requires StacksOk(c) && GetVar(c, "x") == Some(IntValue(5))
    ensures Step(c, "return $x") == (c.(exitCode := 5, running := false), Ok)
  {
    ReturnExprLine(c, "$x");
    assert "return " + "$x" == "return $x";
    EvalIntVariable(c, "x");
    assert "$" + "x" == "$x";
  }

  lemma TwoLines()
    ensures Segments("x = 5\nreturn $x") == ["x = 5", "return $x"]
  {
    var ls := ["x = 5", "return $x"];
    assert JoinLines(ls) == "x = 5\nreturn $x" by {
      assert JoinLines(ls[1..]) == "return $x";
    }
    SegmentsJoin(ls);
  }

  lemma RunTwoLines(c: Context)
    requires StacksOk(c) && c.running && !Refused(c, "x")
    ensures RunLines(c, ["x = 5", "return $x"]).exitCode == 5
  {
    var c1 := c.(lineNum := c.lineNum + 1);
    AssignFive(c1);
    var d := SetVar(c1, "x", IntValue(5)).0;
    RunFirst(Step, c, "x = 5", ["return $x"], d);
    var d1 := d.(lineNum := d.lineNum + 1);
    ReturnX(d1);
    RunFirst(Step, d, "return $x", [], d1.(exitCode := 5, running := false));
    assert ["x = 5"] + ["return $x"] == ["x = 5", "return $x"];
    assert ["return $x"] + [] == ["return $x"];
  }

  /** `x = 5` then `return $x` returns 5. */
  lemma ScriptReturnsVariable(c: Context)
    requires StacksOk(c) && !Refused(c, "x")
    ensures Execute(c, "x = 5\nreturn $x").1 == 5
  {
    TwoLines();
    RunTwoLines(c.(running := true, lineNum := 0));
  }
}
