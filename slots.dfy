/** The fixed-capacity, linear-scan name tables of the shell and the script
    context (aliases, environment, variables, functions, labels).  Every one
    of them is an array of slots with a `defined` flag; lookup returns the
    first defined slot whose stored name equals the key, insertion takes the
    first undefined slot, and a stored name is the key cut to 63 characters
    (`strncpy(name, key, 63)` into a 64-byte field). */
module Slots {
  import opened Interpreter
  import opened CString

  const NameMax: nat := 63

  datatype Slot<V> = Slot(name: string, val: V, defined: bool)

  predicate Holds<V>(e: Slot<V>, name: string) { e.defined && e.name == name }

  /** Index of the first defined slot named `name`, or -1. */
  function FindIn<V>(s: seq<Slot<V>>, name: string): (r: int)
    ensures -1 <= r < |s|
    ensures r >= 0 ==> Holds(s[r], name)
    ensures r >= 0 ==> forall j :: 0 <= j < r ==> !Holds(s[j], name)
    ensures r < 0 <==> forall j :: 0 <= j < |s| ==> !Holds(s[j], name)
  {
    if s == [] then -1
    else if Holds(s[0], name) then 0
    else
      var r := FindIn(s[1..], name);
      assert forall j :: 1 <= j < |s| ==> s[j] == s[1..][j - 1];
      if r < 0 then -1 else r + 1
  }

  /** Index of the first undefined slot, or -1. */
  function FreeIn<V>(s: seq<Slot<V>>): (r: int)
    ensures -1 <= r < |s|
    ensures r >= 0 ==> !s[r].defined
    ensures r >= 0 ==> forall j :: 0 <= j < r ==> s[j].defined
    ensures r < 0 <==> forall j :: 0 <= j < |s| ==> s[j].defined
  {
    if s == [] then -1
    else if !s[0].defined then 0
    else
      var r := FreeIn(s[1..]);
      assert forall j :: 1 <= j < |s| ==> s[j] == s[1..][j - 1];
      if r < 0 then -1 else r + 1
  }

  /** The value a lookup by `name` yields (the C functions return a pointer
      into the first matching slot, or NULL). */
  function Lookup<V>(s: seq<Slot<V>>, name: string): Option<V>
  {
    var i := FindIn(s, name);
    if i >= 0 then Some(s[i].val) else None
  }

  /** Number of defined slots: what the tables' `*_count` fields track. */
  function Count<V>(s: seq<Slot<V>>): nat
  {
    if s == [] then 0 else Count(s[..|s| - 1]) + (if s[|s| - 1].defined then 1 else 0)
  }

  /** No two defined slots carry the same name. */
  ghost predicate UniqueNames<V>(s: seq<Slot<V>>)
  {
    forall i, j :: 0 <= i < j < |s| && s[i].defined && s[j].defined ==> s[i].name != s[j].name
  }

  /** "Update in place or take the first free slot": the common shape of
      `shell_alias_set`, `shell_setenv`, `create_label` and
      `script_define_func`.  `None` is the SYSERR of a full table. */
  function Upsert<V>(s: seq<Slot<V>>, name: string, v: V): Option<seq<Slot<V>>>
  {
    var i := FindIn(s, name);
    if i >= 0 then Some(s[i := s[i].(val := v)])
    else
      var j := FreeIn(s);
      if j >= 0 then Some(s[j := Slot(Truncate(name, NameMax), v, true)]) else None
  }

  /** `shell_alias_remove` / `shell_unsetenv`: clear the first slot named
      `name`; `None` is the SYSERR of an absent name. */
  function Remove<V>(s: seq<Slot<V>>, name: string): Option<seq<Slot<V>>>
  {
    var i := FindIn(s, name);
    if i >= 0 then Some(s[i := s[i].(defined := false)]) else None
  }

  lemma {:induction false} CountBound<V>(s: seq<Slot<V>>)
    ensures Count(s) <= |s|
    ensures Count(s) == |s| <==> FreeIn(s) < 0
  {
    if s != [] {
      var t := s[..|s| - 1];
      CountBound(t);
      assert forall j :: 0 <= j < |t| ==> t[j] == s[j];
    }
  }

  lemma {:induction false} CountUpdate<V>(s: seq<Slot<V>>, i: nat, e: Slot<V>)
    requires i < |s|
    ensures Count(s[i := e]) == Count(s) - (if s[i].defined then 1 else 0) + (if e.defined then 1 else 0)
    decreases |s|
  {
    var t := s[i := e];
    if i < |s| - 1 {
      assert t[..|t| - 1] == s[..|s| - 1][i := e];
      CountUpdate(s[..|s| - 1], i, e);
    } else {
      assert t[..|t| - 1] == s[..|s| - 1];
    }
  }

  /** Two tables that agree on which slots hold `name` find it at the same
      index. */
  lemma FindInAgrees<V>(s: seq<Slot<V>>, t: seq<Slot<V>>, name: string)
    requires |s| == |t|
    requires forall j :: 0 <= j < |s| ==> (Holds(s[j], name) <==> Holds(t[j], name))
    ensures FindIn(s, name) == FindIn(t, name)
  {
    var a, b := FindIn(s, name), FindIn(t, name);
    if a >= 0 && b >= 0 {
      assert !(a < b) && !(b < a);
    }
  }

  /** Every slot undefined: the state `script_reset_context` and program
      start leave a table in. */
  lemma {:induction false} CountNone<V>(s: seq<Slot<V>>)
    requires forall j :: 0 <= j < |s| ==> !s[j].defined
    ensures Count(s) == 0
  {
    if s != [] { CountNone(s[..|s| - 1]); }
  }

  /** After a successful upsert of a key of fewer than 64 characters, looking
      the key up yields the new value. */
  lemma UpsertLookup<V>(s: seq<Slot<V>>, name: string, v: V)
    requires |name| <= NameMax
    requires Upsert(s, name, v).Some?
    ensures Lookup(Upsert(s, name, v).value, name) == Some(v)
  {
    var t := Upsert(s, name, v).value;
    var i := FindIn(s, name);
    if i >= 0 {
      assert Holds(t[i], name);
      assert forall j :: 0 <= j < i ==> t[j] == s[j];
      assert FindIn(t, name) == i;
    } else {
      var j := FreeIn(s);
      assert Holds(t[j], name);
      assert forall k :: 0 <= k < j ==> t[k] == s[k];
      assert FindIn(t, name) == j;
    }
  }

  /** An upsert fails exactly when the key is absent and every slot is
      taken; it then changes nothing. */
  lemma UpsertFails<V>(s: seq<Slot<V>>, name: string, v: V)
    ensures Upsert(s, name, v).None? <==> FindIn(s, name) < 0 && Count(s) == |s|
  {
    CountBound(s);
  }

  /** An upsert leaves the lookup of every other key alone, unless that key
      is the 63-character cut of a longer inserted key. */
  lemma UpsertFrame<V>(s: seq<Slot<V>>, name: string, v: V, other: string)
    requires Upsert(s, name, v).Some?
    requires other != name && other != Truncate(name, NameMax)
    ensures Lookup(Upsert(s, name, v).value, other) == Lookup(s, other)
  {
    var t := Upsert(s, name, v).value;
    var i := FindIn(s, name);
    var k := if i >= 0 then i else FreeIn(s);
    assert forall j :: 0 <= j < |s| && j != k ==> t[j] == s[j];
    assert !Holds(t[k], other) && !Holds(s[k], other);
    assert forall j :: 0 <= j < |s| ==> (Holds(t[j], other) <==> Holds(s[j], other));
    FindInAgrees(t, s, other);
  }

  /** Overwriting a slot that neither held nor now holds `name` leaves the
      lookup of `name` alone. */
  lemma FindInUpdate<V>(s: seq<Slot<V>>, k: nat, e: Slot<V>, name: string)
    requires k < |s| && !Holds(s[k], name) && !Holds(e, name)
    ensures FindIn(s[k := e], name) == FindIn(s, name)
  {
    var t := s[k := e];
    assert forall j :: 0 <= j < |s| ==> (Holds(t[j], name) <==> Holds(s[j], name));
    FindInAgrees(t, s, name);
  }

  /** The defined-slot count grows by one exactly when a new slot is taken. */
  lemma UpsertCount<V>(s: seq<Slot<V>>, name: string, v: V)
    requires Upsert(s, name, v).Some?
    ensures Count(Upsert(s, name, v).value) == Count(s) + (if FindIn(s, name) >= 0 then 0 else 1)
  {
    var i := FindIn(s, name);
    if i >= 0 {
      CountUpdate(s, i, s[i].(val := v));
    } else {
      CountUpdate(s, FreeIn(s), Slot(Truncate(name, NameMax), v, true));
    }
  }

  /** Keys of fewer than 64 characters keep the table free of duplicate
      names. */
  lemma UpsertUnique<V>(s: seq<Slot<V>>, name: string, v: V)
    requires UniqueNames(s) && |name| <= NameMax
    requires Upsert(s, name, v).Some?
    ensures UniqueNames(Upsert(s, name, v).value)
  {
  }

  lemma RemoveCount<V>(s: seq<Slot<V>>, name: string)
    requires Remove(s, name).Some?
    ensures Count(Remove(s, name).value) == Count(s) - 1
  {
    var i := FindIn(s, name);
    CountUpdate(s, i, s[i].(defined := false));
  }

  /** With unique names, a removed key is no longer found, and every other
      key keeps its lookup. */
  lemma RemoveLookup<V>(s: seq<Slot<V>>, name: string, other: string)
    requires UniqueNames(s)
    requires Remove(s, name).Some?
    ensures Lookup(Remove(s, name).value, name) == None
    ensures other != name ==> Lookup(Remove(s, name).value, other) == Lookup(s, other)
    ensures UniqueNames(Remove(s, name).value)
  {
    var t := Remove(s, name).value;
    var i := FindIn(s, name);
    assert forall j :: 0 <= j < |s| && j != i ==> t[j] == s[j];
    assert forall j :: 0 <= j < |s| ==> !Holds(t[j], name);
    if other != name {
      assert forall j :: 0 <= j < |s| ==> (Holds(t[j], other) <==> Holds(s[j], other));
      FindInAgrees(t, s, other);
    }
  }

  /** An upsert stores `v` in one slot and leaves every other value alone. */
  lemma UpsertValues<V>(s: seq<Slot<V>>, name: string, v: V)
    requires Upsert(s, name, v).Some?
    ensures |Upsert(s, name, v).value| == |s|
    ensures forall j :: 0 <= j < |s| ==> Upsert(s, name, v).value[j].val in {s[j].val, v}
  {
  }

  /** A removal changes no stored value. */
  lemma RemoveValues<V>(s: seq<Slot<V>>, name: string)
    requires Remove(s, name).Some?
    ensures |Remove(s, name).value| == |s|
    ensures forall j :: 0 <= j < |s| ==> Remove(s, name).value[j].val == s[j].val
  {
  }

  /** The scanning loop of `find_var`, `find_func`, `find_label`,
      `shell_getenv` and `shell_alias_get`. */
  method Find<V>(a: array<Slot<V>>, name: string) returns (r: int)
    ensures r == FindIn(a[..], name)
  {
    var i := 0;
    while i < a.Length
      invariant 0 <= i <= a.Length
      invariant forall j :: 0 <= j < i ==> !Holds(a[j], name)
    {
      if a[i].defined && a[i].name == name {
        return i;
      }
      i := i + 1;
    }
    return -1;
  }

  /** The "find empty slot" loop of the same functions. */
  method Free<V>(a: array<Slot<V>>) returns (r: int)
    ensures r == FreeIn(a[..])
  {
    var i := 0;
    while i < a.Length
      invariant 0 <= i <= a.Length
      invariant forall j :: 0 <= j < i ==> a[j].defined
    {
      if !a[i].defined {
        return i;
      }
      i := i + 1;
    }
    return -1;
  }

  /** `Upsert` carried out in place by the two scanning loops. */
  method UpsertInPlace<V>(a: array<Slot<V>>, name: string, v: V) returns (ok: bool, inserted: bool)
    modifies a
    ensures ok == Upsert(old(a[..]), name, v).Some?
    ensures ok ==> a[..] == Upsert(old(a[..]), name, v).value
    ensures !ok ==> a[..] == old(a[..])
    ensures inserted <==> ok && FindIn(old(a[..]), name) < 0
  {
    var i := Find(a, name);
    if i >= 0 {
      a[i] := a[i].(val := v);
      return true, false;
    }
    var j := Free(a);
    if j >= 0 {
      a[j] := Slot(Truncate(name, NameMax), v, true);
      return true, true;
    }
    return false, false;
  }

  /** `Remove` carried out in place. */
  method RemoveInPlace<V>(a: array<Slot<V>>, name: string) returns (ok: bool)
    modifies a
    ensures ok == Remove(old(a[..]), name).Some?
    ensures ok ==> a[..] == Remove(old(a[..]), name).value
    ensures !ok ==> a[..] == old(a[..])
  {
    var i := Find(a, name);
    if i >= 0 {
      a[i] := a[i].(defined := false);
      return true;
    }
    return false;
  }
}
