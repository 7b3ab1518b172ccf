/** The C library behaviour the interpreter relies on, stated on `seq<char>`:
    character classes of <ctype.h> in the C locale, `strncpy` truncation,
    `snprintf("%d")` and `atoi`.  A C string is modelled as the characters
    before its terminating NUL. */
module CString {

  const Nul: char := '\0'

  /** The two characters every skip loop of the interpreter steps over. */
  predicate IsBlank(c: char) { c == ' ' || c == '\t' }

  /** `isspace` in the C locale (what `atoi` skips). */
  predicate IsSpace(c: char) {
    c == ' ' || c == '\t' || c == '\n' || c == '\U{B}' || c == '\U{C}' || c == '\r'
  }

  predicate IsDigit(c: char) { '0' <= c <= '9' }
  predicate IsOctal(c: char) { '0' <= c <= '7' }
  predicate IsXDigit(c: char) { IsDigit(c) || 'a' <= c <= 'f' || 'A' <= c <= 'F' }
  predicate IsAlnum(c: char) { IsDigit(c) || 'a' <= c <= 'z' || 'A' <= c <= 'Z' }

  /** Characters allowed in a `$name` reference: `isalnum(c) || c == '_'`. */
  predicate IsNameChar(c: char) { IsAlnum(c) || c == '_' }

  function Min(a: int, b: int): int { if a <= b then a else b }

  /** `strncpy(dst, s, n)` into a buffer whose byte `n` is already NUL:
      at most the first `n` characters of `s` survive. */
  function Truncate(s: string, n: nat): (r: string)
    ensures |r| <= n && r <= s
    ensures |s| <= n ==> r == s
    ensures |s| > n ==> |r| == n
  {
    if |s| <= n then s else s[..n]
  }

  /** Value of a hexadecimal digit, 0 for anything else. */
  function DigitValue(c: char): nat
  {
    if IsDigit(c) then c as int - '0' as int
    else if 'a' <= c <= 'f' then c as int - 'a' as int + 10
    else if 'A' <= c <= 'F' then c as int - 'A' as int + 10
    else 0
  }

  /** A digit of base 8, 10 or 16. */
  predicate IsDigitIn(c: char, base: nat) { IsXDigit(c) && DigitValue(c) < base }

  predicate AllDigits(ds: string, base: nat) {
    forall k :: 0 <= k < |ds| ==> IsDigitIn(ds[k], base)
  }

  /** Value of a digit string, most significant digit first, accumulated the
      way the source's digit loops do it: `result = result * base + digit`. */
  function DigitsValue(ds: string, base: nat): nat
  {
    if ds == [] then 0 else DigitsValue(ds[..|ds| - 1], base) * base + DigitValue(ds[|ds| - 1])
  }

  /** The longest run of base-`base` digits starting at index `k`. */
  function DigitRun(s: string, k: nat, base: nat): (r: string)
    decreases |s| - k
  {
    if k < |s| && IsDigitIn(s[k], base) then [s[k]] + DigitRun(s, k + 1, base) else []
  }

  /** First index at or after `i` that is not a blank (or `|s|`). */
  function SkipBlanks(s: string, i: nat): (j: nat)
    ensures j <= |s| && (i <= |s| ==> i <= j)
    decreases |s| - i
  {
    if i < |s| && IsBlank(s[i]) then SkipBlanks(s, i + 1) else if i < |s| then i else |s|
  }

  /** First index at or after `i` that is not `isspace` (or `|s|`). */
  function SkipSpace(s: string, i: nat): (j: nat)
    decreases |s| - i
  {
    if i < |s| && IsSpace(s[i]) then SkipSpace(s, i + 1) else if i < |s| then i else |s|
  }

  function DigitChar(d: nat): char
    requires d < 10
  {
    ('0' as int + d) as char
  }

  /** Decimal digits of a natural number, without leading zeros. */
  function NatToString(n: nat): string
  {
    if n < 10 then [DigitChar(n)] else NatToString(n / 10) + [DigitChar(n % 10)]
  }

  /** `snprintf(buf, 16, "%d", n)`. */
  function IntToString(n: int): string
  {
    if n < 0 then "-" + NatToString(-n) else NatToString(n)
  }

  /** `atoi`: skip white space, one optional sign, then decimal digits up to
      the first non-digit; no digits gives 0. */
  function Atoi(s: string): int
  {
    var i := SkipSpace(s, 0);
    var j := if i < |s| && (s[i] == '-' || s[i] == '+') then i + 1 else i;
    var m: int := DigitsValue(DigitRun(s, j, 10), 10);
    if i < |s| && s[i] == '-' then -m else m
  }

  lemma SkipBlanksBounds(s: string, i: nat)
    requires i <= |s|
    ensures i <= SkipBlanks(s, i) <= |s|
    ensures forall k :: i <= k < SkipBlanks(s, i) ==> IsBlank(s[k])
    ensures SkipBlanks(s, i) < |s| ==> !IsBlank(s[SkipBlanks(s, i)])
    decreases |s| - i
  {
    if i < |s| && IsBlank(s[i]) { SkipBlanksBounds(s, i + 1); }
  }

  /** A run of digits followed by a non-digit (or the end) is exactly the
      `DigitRun` at its start. */
  lemma {:induction false} DigitRunIs(s: string, k: nat, p: nat, base: nat)
    requires k <= p <= |s|
    requires AllDigits(s[k..p], base)
    requires p == |s| || !IsDigitIn(s[p], base)
    ensures DigitRun(s, k, base) == s[k..p]
    decreases p - k
  {
    if k < p {
      assert IsDigitIn(s[k..p][0], base);
      assert s[k+1..p] == s[k..p][1..];
      DigitRunIs(s, k + 1, p, base);
      assert s[k..p] == [s[k]] + s[k+1..p];
    }
  }

  lemma {:induction false} NatToStringDigits(n: nat)
    ensures |NatToString(n)| >= 1
    ensures AllDigits(NatToString(n), 10)
    ensures DigitsValue(NatToString(n), 10) == n
  {
    if n >= 10 {
      NatToStringDigits(n / 10);
      var ds := NatToString(n);
      assert ds[..|ds| - 1] == NatToString(n / 10);
    }
  }

  /** `atoi` reads back what `%d` printed. */
  lemma {:induction false} AtoiIntToString(n: int)
    ensures Atoi(IntToString(n)) == n
  {
    var m: nat := if n < 0 then -n else n;
    var ds := NatToString(m);
    NatToStringDigits(m);
    var s := IntToString(n);
    var j := if n < 0 then 1 else 0;
    assert s[j..|s|] == ds;
    assert IsDigitIn(ds[0], 10);
    assert s[0] == (if n < 0 then '-' else ds[0]);
    assert !IsSpace(s[0]) && SkipSpace(s, 0) == 0;
    DigitRunIs(s, j, |s|, 10);
  }

  /** `%d` never prints the same text for two different numbers. */
  lemma IntToStringInjective(a: int, b: int)
    requires IntToString(a) == IntToString(b)
    ensures a == b
  {
    AtoiIntToString(a);
    AtoiIntToString(b);
  }

  lemma {:induction false} IntToStringNoNul(n: int)
    ensures Nul !in IntToString(n)
  {
    var m: nat := if n < 0 then -n else n;
    NatToStringDigits(m);
    var ds := NatToString(m);
    assert forall k :: 0 <= k < |ds| ==> ds[k] != Nul by {
      forall k | 0 <= k < |ds| ensures ds[k] != Nul { assert IsDigitIn(ds[k], 10); }
    }
  }

  /** The C string that starts at index `at` of a buffer: the characters up
      to the first NUL. */
  function CStrAt(buf: seq<char>, at: nat): (r: string)
    ensures Nul !in r
    decreases |buf| - at
  {
    if at >= |buf| || buf[at] == Nul then [] else [buf[at]] + CStrAt(buf, at + 1)
  }

  /** `t` is laid out at `at` and terminated by a NUL. */
  ghost predicate Stored(buf: seq<char>, at: int, t: string)
  {
    0 <= at && at + |t| < |buf| && (forall j :: 0 <= j < |t| ==> buf[at + j] == t[j]) && buf[at + |t|] == Nul
  }

  /** A NUL-free string stored at `at` is exactly the C string found there. */
  lemma {:induction false} StoredCStr(buf: seq<char>, at: nat, t: string)
    requires Stored(buf, at, t) && Nul !in t
    ensures CStrAt(buf, at) == t
    decreases |t|
  {
    if t != [] {
      assert buf[at] == t[0];
      assert Stored(buf, at + 1, t[1..]) by {
        forall j | 0 <= j < |t[1..]| ensures buf[at + 1 + j] == t[1..][j] { assert buf[at + (j + 1)] == t[j + 1]; }
      }
      StoredCStr(buf, at + 1, t[1..]);
    }
  }

  /** A buffer that holds a NUL at or after `at` stores its C string there. */
  lemma {:induction false} CStrAtStored(buf: seq<char>, at: nat)
    requires at <= |buf| && Nul in buf[at..]
    ensures Stored(buf, at, CStrAt(buf, at))
    decreases |buf| - at
  {
    var k :| at <= k < |buf| && buf[k] == Nul;
    if buf[at] != Nul {
      assert buf[at + 1..][k - at - 1] == Nul;
      CStrAtStored(buf, at + 1);
      var r := CStrAt(buf, at + 1);
      assert CStrAt(buf, at) == [buf[at]] + r;
      forall j | 0 <= j < |r| + 1 ensures buf[at + j] == ([buf[at]] + r)[j] {
        if j > 0 { assert buf[at + 1 + (j - 1)] == r[j - 1]; }
      }
    }
  }

  /** Storage is local: a buffer that agrees below `q` keeps what is stored
      below `q`. */
  lemma StoredFrame(a: seq<char>, b: seq<char>, q: nat, at: int, t: string)
    requires q <= |a| && q <= |b| && forall j :: 0 <= j < q ==> a[j] == b[j]
    requires Stored(a, at, t) && at + |t| < q
    ensures Stored(b, at, t)
  {
    forall j | 0 <= j < |t| ensures b[at + j] == t[j] { assert b[at + j] == a[at + j]; }
  }

  /** `strchr(s, c)` as an index, or -1. */
  function IndexOf(s: string, c: char): (r: int)
    ensures -1 <= r < |s|
    ensures r >= 0 ==> s[r] == c && c !in s[..r]
    ensures r < 0 <==> c !in s
  {
    if s == [] then -1
    else if s[0] == c then 0
    else
      var r := IndexOf(s[1..], c);
      assert r >= 0 ==> s[..r + 1] == [s[0]] + s[1..][..r];
      if r < 0 then -1 else r + 1
  }

  /** The first occurrence of `c` is where `strchr` stops. */
  lemma IndexOfFirst(s: string, c: char, i: int)
    requires 0 <= i < |s| && s[i] == c && c !in s[..i]
    ensures IndexOf(s, c) == i
  {
    var r := IndexOf(s, c);
    assert c in s by { assert s[i] == c; }
    forall k | 0 <= k < i ensures s[k] != c { assert s[..i][k] == s[k]; }
    forall m | i < m <= |s| ensures c in s[..m] { assert s[..m][i] == c; }
  }
}
