/** Variable and tilde expansion of a command line (`shell_expand`,
    shell.c): `$?` becomes the last exit status, `$$` the shell's process
    id, `$NAME` and `${NAME}` the value of an environment variable (nothing
    when it is unset), and a `~` at the start of the line or after a blank
    or a `:` becomes `$HOME` (or `/`).  A substitution that would not fit in
    the output buffer is dropped; copying stops once the buffer is full. */
module Expander {
  import opened Interpreter
  import opened CString
  import opened Slots

  /** `strcpy(output + i, v); i += len` when `i + len < size - 1`, and
      nothing otherwise. */
  function Put(out: string, v: string, size: int): (r: string)
    ensures r == out || r == out + v
    ensures |r| < size - 1 || r == out
  {
    if |out| + |v| < size - 1 then out + v else out
  }

  /** The name after `${`: characters up to `}` (consumed), at most 63 of
      them.  Returns the name and the index after it. */
  function BraceName(inp: string, k: nat, acc: string): (string, nat)
    requires k <= |inp|
    decreases |inp| - k
  {
    if k == |inp| || |acc| >= NameMax then (acc, k)
    else if inp[k] == '}' then (acc, k + 1)
    else BraceName(inp, k + 1, acc + [inp[k]])
  }

  /** The name after a bare `$`: letters, digits and `_`, at most 63. */
  function PlainName(inp: string, k: nat, acc: string): (string, nat)
    requires k <= |inp|
    decreases |inp| - k
  {
    if k == |inp| || |acc| >= NameMax || !IsNameChar(inp[k]) then (acc, k)
    else PlainName(inp, k + 1, acc + [inp[k]])
  }

  /** The variable reference that starts at `k` (just after the `$`). */
  function NameScan(inp: string, k: nat): (r: (string, nat))
    requires k <= |inp|
    ensures k <= r.1 <= |inp|
  {
    if k < |inp| && inp[k] == '{' then BraceNameBounds(inp, k + 1, []); BraceName(inp, k + 1, [])
    else PlainNameBounds(inp, k, []); PlainName(inp, k, [])
  }

  lemma {:induction false} BraceNameBounds(inp: string, k: nat, acc: string)
    requires k <= |inp|
    ensures k <= BraceName(inp, k, acc).1 <= |inp|
    decreases |inp| - k
  {
    if k < |inp| && |acc| < NameMax && inp[k] != '}' { BraceNameBounds(inp, k + 1, acc + [inp[k]]); }
  }

  lemma {:induction false} PlainNameBounds(inp: string, k: nat, acc: string)
    requires k <= |inp|
    ensures k <= PlainName(inp, k, acc).1 <= |inp|
    decreases |inp| - k
  {
    if k < |inp| && |acc| < NameMax && IsNameChar(inp[k]) { PlainNameBounds(inp, k + 1, acc + [inp[k]]); }
  }

  /** `$HOME`, or `/` when it is unset. */
  function Home(env: seq<Slot<string>>): string
  {
    var h := Lookup(env, "HOME");
    if h.Some? then h.value else "/"
  }

  /** A `~` is expanded at the start of the input or after a blank or `:`. */
  predicate TildeAt(inp: string, k: nat)
    requires k < |inp|
  {
    inp[k] == '~' && (k == 0 || inp[k - 1] == ' ' || inp[k - 1] == ':')
  }

  /** One pass of the expansion loop at index `k` of the input: the index
      after what it consumed and the output after it.  `$?` and `$$` stand
      for the last exit status and the process id, `$name` and `${name}`
      for a variable (nothing when it is unset), a `~` at the start of a
      word for the home directory; every other character is copied.  The
      output only grows, and never past `size - 1` characters. */
  function ExpandStep(inp: string, k: nat, out: string, env: seq<Slot<string>>,
                      lastExit: int, pid: int, size: int): (r: (nat, string))
    requires k < |inp|
    ensures k < r.0 <= |inp|
    ensures out <= r.1 && (|out| < size - 1 ==> |r.1| <= size - 1)
  {
    if inp[k] == '$' then
      if k + 1 < |inp| && inp[k + 1] == '?' then (k + 2, Put(out, IntToString(lastExit), size))
      else if k + 1 < |inp| && inp[k + 1] == '$' then (k + 2, Put(out, IntToString(pid), size))
      else
        var (name, next) := NameScan(inp, k + 1);
        var v := Lookup(env, name);
        (next, if v.Some? then Put(out, v.value, size) else out)
    else if TildeAt(inp, k) then (k + 1, Put(out, Home(env), size))
    else (k + 1, out + [inp[k]])
  }

  /** What the output holds once the loop has read the input from `k` on,
      having produced `out` so far. */
  function ExpandFrom(inp: string, k: nat, out: string, env: seq<Slot<string>>,
                      lastExit: int, pid: int, size: int): string
    requires k <= |inp|
    decreases |inp| - k
  {
    if k == |inp| || |out| >= size - 1 then out
    else
      var (next, out') := ExpandStep(inp, k, out, env, lastExit, pid, size);
      ExpandFrom(inp, next, out', env, lastExit, pid, size)
  }

  /** The text `shell_expand(input, output, size)` leaves in `output`. */
  function Expansion(inp: string, env: seq<Slot<string>>, lastExit: int, pid: int, size: int): string
  {
    ExpandFrom(inp, 0, [], env, lastExit, pid, size)
  }

  ghost predicate NulFreeValues(env: seq<Slot<string>>)
  {
    forall j :: 0 <= j < |env| ==> Nul !in env[j].val
  }

  // ---------------------------------------------------------------------
  // Properties of the expansion.

  /** The output always fits in the buffer with its terminating NUL, and
      grows from what was already produced. */
  lemma {:induction false} ExpandFromBound(inp: string, k: nat, out: string, env: seq<Slot<string>>,
                                           lastExit: int, pid: int, size: int)
    requires k <= |inp| && |out| <= size - 1
    ensures out <= ExpandFrom(inp, k, out, env, lastExit, pid, size)
    ensures |ExpandFrom(inp, k, out, env, lastExit, pid, size)| <= size - 1
    decreases |inp| - k
  {
    if k < |inp| && |out| < size - 1 {
      var (next, out') := ExpandStep(inp, k, out, env, lastExit, pid, size);
      ExpandFromBound(inp, next, out', env, lastExit, pid, size);
    }
  }

  lemma ExpansionBound(inp: string, env: seq<Slot<string>>, lastExit: int, pid: int, size: int)
    requires size >= 1
    ensures |Expansion(inp, env, lastExit, pid, size)| <= size - 1
  {
    ExpandFromBound(inp, 0, [], env, lastExit, pid, size);
  }

  /** The output is a C string: no NUL comes from a NUL-free input and
      NUL-free variable values. */
  lemma {:induction false} ExpandFromNoNul(inp: string, k: nat, out: string, env: seq<Slot<string>>,
                                           lastExit: int, pid: int, size: int)
    requires k <= |inp| && Nul !in inp && Nul !in out && NulFreeValues(env)
    ensures Nul !in ExpandFrom(inp, k, out, env, lastExit, pid, size)
    decreases |inp| - k
  {
    if k < |inp| && |out| < size - 1 {
      ExpandStepNoNul(inp, k, out, env, lastExit, pid, size);
      var (next, out') := ExpandStep(inp, k, out, env, lastExit, pid, size);
      ExpandFromNoNul(inp, next, out', env, lastExit, pid, size);
    }
  }

  /** One pass adds no NUL. */
  lemma ExpandStepNoNul(inp: string, k: nat, out: string, env: seq<Slot<string>>,
                        lastExit: int, pid: int, size: int)
    requires k < |inp| && Nul !in inp && Nul !in out && NulFreeValues(env)
    ensures Nul !in ExpandStep(inp, k, out, env, lastExit, pid, size).1
  {
    IntToStringNoNul(lastExit);
    IntToStringNoNul(pid);
  }

  /** Text without `$` or `~` is copied unchanged, cut to `size - 1`
      characters. */
  lemma {:induction false} ExpandFromPlain(inp: string, k: nat, out: string, env: seq<Slot<string>>,
                                           lastExit: int, pid: int, size: int)
    requires k <= |inp| && |out| <= size - 1 && '$' !in inp[k..] && '~' !in inp[k..]
    ensures ExpandFrom(inp, k, out, env, lastExit, pid, size) ==
            out + inp[k..k + Min(|inp| - k, size - 1 - |out|)]
    decreases |inp| - k
  {
    if k < |inp| && |out| < size - 1 {
      assert inp[k] == inp[k..][0];
      assert '$' !in inp[k + 1..] && '~' !in inp[k + 1..] by {
        assert inp[k + 1..] == inp[k..][1..];
      }
      ExpandFromPlain(inp, k + 1, out + [inp[k]], env, lastExit, pid, size);
      var m := Min(|inp| - (k + 1), size - 1 - |out| - 1);
      assert out + [inp[k]] + inp[k + 1..k + 1 + m] == out + inp[k..k + 1 + m];
    }
  }

  lemma PlainExpansion(inp: string, env: seq<Slot<string>>, lastExit: int, pid: int, size: int)
    requires '$' !in inp && '~' !in inp && |inp| < size
    ensures Expansion(inp, env, lastExit, pid, size) == inp
  {
    assert inp[0..] == inp;
    ExpandFromPlain(inp, 0, [], env, lastExit, pid, size);
    assert inp[0..|inp|] == inp;
  }

  /** `$?` prints the last status in decimal, and `atoi` reads it back. */
  lemma StatusExpansion(env: seq<Slot<string>>, lastExit: int, pid: int, size: int)
    requires |IntToString(lastExit)| < size - 1
    ensures Expansion("$?", env, lastExit, pid, size) == IntToString(lastExit)
    ensures Atoi(Expansion("$?", env, lastExit, pid, size)) == lastExit
  {
    var inp := "$?";
    assert inp[0] == '$' && inp[1] == '?';
    assert Expansion(inp, env, lastExit, pid, size) == ExpandFrom(inp, 2, IntToString(lastExit), env, lastExit, pid, size);
    AtoiIntToString(lastExit);
  }

  /** `$$` prints the shell's process id. */
  lemma PidExpansion(env: seq<Slot<string>>, lastExit: int, pid: int, size: int)
    requires |IntToString(pid)| < size - 1
    ensures Expansion("$$", env, lastExit, pid, size) == IntToString(pid)
  {
    var inp := "$$";
    assert inp[0] == '$' && inp[1] == '$';
    assert Expansion(inp, env, lastExit, pid, size) == ExpandFrom(inp, 2, IntToString(pid), env, lastExit, pid, size);
  }

  lemma {:induction false} PlainNameIs(inp: string, k: nat, acc: string, p: nat)
    requires k <= p <= |inp| && |acc| + (p - k) <= NameMax
    requires forall m :: k <= m < p ==> IsNameChar(inp[m])
    requires p == |inp| || !IsNameChar(inp[p]) || |acc| + (p - k) == NameMax
    ensures PlainName(inp, k, acc) == (acc + inp[k..p], p)
    decreases p - k
  {
    if k == p {
      assert acc + inp[k..p] == acc;
    } else {
      PlainNameIs(inp, k + 1, acc + [inp[k]], p);
      assert acc + [inp[k]] + inp[k + 1..p] == acc + inp[k..p];
    }
  }

  lemma {:induction false} BraceNameIs(inp: string, k: nat, acc: string, p: nat)
    requires k <= p < |inp| && |acc| + (p - k) < NameMax && inp[p] == '}'
    requires forall m :: k <= m < p ==> inp[m] != '}'
    ensures BraceName(inp, k, acc) == (acc + inp[k..p], p + 1)
    decreases p - k
  {
    if k == p {
      assert acc + inp[k..p] == acc;
    } else {
      BraceNameIs(inp, k + 1, acc + [inp[k]], p);
      assert acc + [inp[k]] + inp[k + 1..p] == acc + inp[k..p];
    }
  }

  /** `$NAME` and `${NAME}` on their own expand to the variable's value when
      it is set and fits, and to nothing when it is unset. */
  lemma VariableExpansion(name: string, env: seq<Slot<string>>, lastExit: int, pid: int, size: int)
    requires 1 <= |name| <= NameMax && name[0] != '?' && name[0] != '$' && name[0] != '{'
    requires forall m :: 0 <= m < |name| ==> IsNameChar(name[m])
    requires Lookup(env, name).Some? ==> |Lookup(env, name).value| < size - 1
    requires size >= 2
    ensures Expansion("$" + name, env, lastExit, pid, size) ==
            if Lookup(env, name).Some? then Lookup(env, name).value else []
  {
    var inp := "$" + name;
    assert inp[0] == '$' && inp[1] == name[0];
    PlainNameIs(inp, 1, [], |inp|);
    assert [] + inp[1..|inp|] == name;
    assert NameScan(inp, 1) == (name, |inp|);
    var v := Lookup(env, name);
    assert Expansion(inp, env, lastExit, pid, size) ==
           ExpandFrom(inp, |inp|, if v.Some? then Put([], v.value, size) else [], env, lastExit, pid, size);
  }

  /** The name of `${name}` is `name`, and the scan ends past the brace. */
  lemma BracedName(name: string)
    requires |name| < NameMax && '}' !in name
    ensures NameScan("${" + name + "}", 1) == (name, |name| + 3)
  {
    var inp := "${" + name + "}";
    assert inp[1] == '{' && inp[|inp| - 1] == '}';
    assert forall m :: 2 <= m < |inp| - 1 ==> inp[m] == name[m - 2];
    BraceNameIs(inp, 2, [], |inp| - 1);
    assert [] + inp[2..|inp| - 1] == name;
  }

  lemma BracedExpansion(name: string, env: seq<Slot<string>>, lastExit: int, pid: int, size: int)
    requires |name| < NameMax && '}' !in name
    requires Lookup(env, name).Some? ==> |Lookup(env, name).value| < size - 1
    requires size >= 2
    ensures Expansion("${" + name + "}", env, lastExit, pid, size) ==
            if Lookup(env, name).Some? then Lookup(env, name).value else []
  {
    var inp := "${" + name + "}";
    BracedName(name);
    assert inp[0] == '$' && inp[1] == '{';
    var v := Lookup(env, name);
    assert Expansion(inp, env, lastExit, pid, size) ==
           ExpandFrom(inp, |inp|, if v.Some? then Put([], v.value, size) else [], env, lastExit, pid, size);
  }

  /** A leading `~` becomes the home directory. */
  lemma TildeExpansion(env: seq<Slot<string>>, lastExit: int, pid: int, size: int)
    requires |Home(env)| < size - 1
    ensures Expansion("~", env, lastExit, pid, size) == Home(env)
  {
    var inp := "~";
    assert TildeAt(inp, 0);
  }

  // ---------------------------------------------------------------------
  // The expansion loop.

  /** `strcpy(output + i, v)`. */
  method CopyAt(output: array<char>, i: int, v: string)
    requires 0 <= i && i + |v| < output.Length
    modifies output
    ensures forall j :: 0 <= j < i ==> output[j] == old(output[j])
    ensures forall j :: 0 <= j < |v| ==> output[i + j] == v[j]
    ensures output[i + |v|] == Nul
  {
    var j := 0;
    while j < |v|
      invariant 0 <= j <= |v|
      invariant forall m :: 0 <= m < i ==> output[m] == old(output[m])
      invariant forall m :: 0 <= m < j ==> output[i + m] == v[m]
    {
      output[i + j] := v[j];
      j := j + 1;
    }
    output[i + |v|] := Nul;
  }

  /** `Put` carried out on the buffer: `output[..i]` holds `out`. */
  method PutAt(output: array<char>, i: int, v: string, size: int, ghost out: string) returns (i': int)
    requires 0 <= i == |out| <= size - 1 && size <= output.Length
    requires forall j :: 0 <= j < i ==> output[j] == out[j]
    modifies output
    ensures i' == |Put(out, v, size)|
    ensures forall j :: 0 <= j < i' ==> output[j] == Put(out, v, size)[j]
  {
    if i + |v| < size - 1 {
      CopyAt(output, i, v);
      return i + |v|;
    }
    return i;
  }

  /** `shell_expand(input, output, size)` with the environment, the last
      exit status and the process id passed in. */
  method Expand(input: string, env: seq<Slot<string>>, lastExit: int, pid: int, output: array<char>, size: int)
    requires size >= 1 && output.Length >= size
    modifies output
    ensures Stored(output[..], 0, Expansion(input, env, lastExit, pid, size))
  {
    var p := 0;
    var i := 0;
    ghost var out: string := [];
    while p < |input| && i < size - 1
      invariant 0 <= p <= |input| && 0 <= i == |out| <= size - 1
      invariant forall j :: 0 <= j < i ==> output[j] == out[j]
      invariant Expansion(input, env, lastExit, pid, size) == ExpandFrom(input, p, out, env, lastExit, pid, size)
      decreases |input| - p
    {
      p, i, out := ExpandOne(input, p, env, lastExit, pid, output, i, size, out);
    }
    output[i] := Nul;
    assert Expansion(input, env, lastExit, pid, size) == out;
  }

  /** One pass of the loop of `shell_expand`, on the buffer. */
  method ExpandOne(input: string, p: int, env: seq<Slot<string>>, lastExit: int, pid: int,
                   output: array<char>, i: int, size: int, ghost out: string)
      returns (p': int, i': int, ghost out': string)
    requires 0 <= p < |input| && 0 <= i == |out| < size - 1 && size <= output.Length
    requires forall j :: 0 <= j < i ==> output[j] == out[j]
    modifies output
    ensures (p', out') == ExpandStep(input, p, out, env, lastExit, pid, size)
    ensures i' == |out'| && forall j :: 0 <= j < i' ==> output[j] == out'[j]
  {
    if input[p] == '$' {
      p', i', out' := ExpandDollar(input, p, env, lastExit, pid, output, i, size, out);
    } else if input[p] == '~' && (p == 0 || input[p - 1] == ' ' || input[p - 1] == ':') {
      var home := Lookup(env, "HOME");
      var h := if home.Some? then home.value else "/";
      i' := PutAt(output, i, h, size, out);
      p', out' := p + 1, Put(out, h, size);
    } else {
      output[i] := input[p];
      p', i', out' := p + 1, i + 1, out + [input[p]];
    }
  }

  /** The `$` case of the loop of `shell_expand`. */
  method ExpandDollar(input: string, p: int, env: seq<Slot<string>>, lastExit: int, pid: int,
                      output: array<char>, i: int, size: int, ghost out: string)
      returns (p': int, i': int, ghost out': string)
    requires 0 <= p < |input| && input[p] == '$' && 0 <= i == |out| < size - 1 && size <= output.Length
    requires forall j :: 0 <= j < i ==> output[j] == out[j]
    modifies output
    ensures (p', out') == ExpandStep(input, p, out, env, lastExit, pid, size)
    ensures i' == |out'| && forall j :: 0 <= j < i' ==> output[j] == out'[j]
  {
    if p + 1 < |input| && input[p + 1] == '?' {
      i' := PutAt(output, i, IntToString(lastExit), size, out);
      return p + 2, i', Put(out, IntToString(lastExit), size);
    } else if p + 1 < |input| && input[p + 1] == '$' {
      i' := PutAt(output, i, IntToString(pid), size, out);
      return p + 2, i', Put(out, IntToString(pid), size);
    }
    var name, next := ScanName(input, p + 1);
    var value := Lookup(env, name);
    p', i', out' := next, i, out;
    if value.Some? {
      i' := PutAt(output, i, value.value, size, out);
      out' := Put(out, value.value, size);
    }
  }

  /** The name-collecting loop of `shell_expand`. */
  method ScanName(input: string, k: int) returns (name: string, next: int)
    requires 0 <= k <= |input|
    ensures (name, next) == NameScan(input, k)
  {
    var p := k;
    var inBraces := false;
    if p < |input| && input[p] == '{' {
      inBraces := true;
      p := p + 1;
    }
    name := [];
    while p < |input| && |name| < NameMax
      invariant k <= p <= |input|
      invariant NameScan(input, k) == if inBraces then BraceName(input, p, name) else PlainName(input, p, name)
      decreases |input| - p
    {
      if inBraces && input[p] == '}' {
        p := p + 1;
        break;
      }
      if !inBraces && !IsNameChar(input[p]) {
        break;
      }
      name := name + [input[p]];
      p := p + 1;
    }
    next := p;
  }
}
