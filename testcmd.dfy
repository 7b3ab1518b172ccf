/** The `test` and `[` builtins (shell.c): a status computed from the words
    of the command alone. */
module TestCmd {
  import opened Interpreter
  import opened CString

  function BoolStatus(b: bool): int { if b then ShellOk else ShellError }

  /** `cmd_test(argc, argv)` with `argv` the words of the command.  The
      `[` form drops a closing `]` when there is one; then one operand tests
      for a non-empty string, `-n` / `-z` test a string's length, and the
      binary forms compare strings or `atoi` values.  Everything else,
      including fewer than two words, fails. */
  function TestStatus(argv: seq<string>): (r: int)
    ensures r == ShellOk || r == ShellError
  {
    if |argv| < 2 then ShellError
    else
      var n := if argv[0] == "[" && argv[|argv| - 1] == "]" then |argv| - 1 else |argv|;
      if n == 2 then BoolStatus(|argv[1]| > 0)
      else if n == 3 && argv[1] == "-n" then BoolStatus(|argv[2]| > 0)
      else if n == 3 && argv[1] == "-z" then BoolStatus(|argv[2]| == 0)
      else if n == 4 then
        var op := argv[2];
        if op == "=" || op == "==" then BoolStatus(argv[1] == argv[3])
        else if op == "!=" then BoolStatus(argv[1] != argv[3])
        else if op == "-eq" then BoolStatus(Atoi(argv[1]) == Atoi(argv[3]))
        else if op == "-ne" then BoolStatus(Atoi(argv[1]) != Atoi(argv[3]))
        else if op == "-lt" then BoolStatus(Atoi(argv[1]) < Atoi(argv[3]))
        else if op == "-le" then BoolStatus(Atoi(argv[1]) <= Atoi(argv[3]))
        else if op == "-gt" then BoolStatus(Atoi(argv[1]) > Atoi(argv[3]))
        else if op == "-ge" then BoolStatus(Atoi(argv[1]) >= Atoi(argv[3]))
        else ShellError
      else ShellError
  }

  /** `[ ... ]` is `test ...`. */
  lemma BracketForm(args: seq<string>)
    ensures TestStatus(["["] + args + ["]"]) == TestStatus(["test"] + args)
  {
    var a, b := ["["] + args + ["]"], ["test"] + args;
    assert a[|a| - 1] == "]" && a[0] == "[";
    assert forall k :: 1 <= k < |b| ==> a[k] == b[k];
    if |b| >= 2 {
      assert b[0] != "[";
    }
  }

  /** `[` without a closing `]` also behaves as `test`. */
  lemma UnclosedBracket(args: seq<string>)
    requires args == [] || args[|args| - 1] != "]"
    ensures TestStatus(["["] + args) == TestStatus(["test"] + args)
  {
    var a, b := ["["] + args, ["test"] + args;
    assert forall k :: 1 <= k < |b| ==> a[k] == b[k];
    if |a| >= 2 {
      assert a[|a| - 1] == args[|args| - 1];
      assert b[0] != "[";
    }
  }

  /** String comparison: success exactly when the operands are equal. */
  lemma StringEquality(x: string, y: string)
    ensures TestStatus(["test", x, "=", y]) == ShellOk <==> x == y
    ensures TestStatus(["test", x, "==", y]) == TestStatus(["test", x, "=", y])
    ensures TestStatus(["test", x, "!=", y]) == ShellOk <==> x != y
  {
    var t := ["test", x, "=", y];
    assert t[0] != "[";
  }

  /** Numeric comparison decides by the `atoi` values of the operands. */
  lemma NumericOperands(a: string, b: string)
    ensures TestStatus(["test", a, "-eq", b]) == BoolStatus(Atoi(a) == Atoi(b))
    ensures TestStatus(["test", a, "-ne", b]) == BoolStatus(Atoi(a) != Atoi(b))
    ensures TestStatus(["test", a, "-lt", b]) == BoolStatus(Atoi(a) < Atoi(b))
    ensures TestStatus(["test", a, "-le", b]) == BoolStatus(Atoi(a) <= Atoi(b))
    ensures TestStatus(["test", a, "-gt", b]) == BoolStatus(Atoi(a) > Atoi(b))
    ensures TestStatus(["test", a, "-ge", b]) == BoolStatus(Atoi(a) >= Atoi(b))
  {
  }

  /** On decimal numerals that means by the numbers they print. */
  lemma NumericComparison(x: int, y: int)
    ensures TestStatus(["test", IntToString(x), "-eq", IntToString(y)]) == BoolStatus(x == y)
    ensures TestStatus(["test", IntToString(x), "-lt", IntToString(y)]) == BoolStatus(x < y)
    ensures TestStatus(["test", IntToString(x), "-ge", IntToString(y)]) == BoolStatus(x >= y)
  {
    AtoiIntToString(x);
    AtoiIntToString(y);
    NumericOperands(IntToString(x), IntToString(y));
  }

  /** `-n` and `-z` are complementary, and a lone operand is `-n`. */
  lemma LengthTests(s: string)
    ensures TestStatus(["test", "-n", s]) != TestStatus(["test", "-z", s])
    ensures TestStatus(["test", s]) == TestStatus(["test", "-n", s])
  {
  }

  /** `test` with no operand, and an unknown operator, fail. */
  lemma Failures(x: string, op: string, y: string)
    requires op !in ["=", "==", "!=", "-eq", "-ne", "-lt", "-le", "-gt", "-ge"]
    ensures TestStatus(["test"]) == ShellError
    ensures TestStatus(["["]) == ShellError
    ensures TestStatus(["test", x, op, y]) == ShellError
  {
    assert ["test", x, op, y][2] == op;
  }
}
