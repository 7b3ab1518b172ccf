/** Word splitting of a command line (`shell_parse_line`, shell.c): blanks
    separate words, a backslash takes the next character literally, single
    and double quotes group characters and are removed, a `#` at the start of
    a word ends the line, and at most `max_args - 1` words are taken.  The
    C function works in place: it deletes quote and backslash characters by
    shifting the rest of the line left, writes a NUL after each word and
    stores the words' start addresses in `argv`. */
module Lexer {
  import opened CString

  predicate IsQuote(c: char) { c == '"' || c == '\'' }

  /** The words of `s` when the outer loop stands at index `i` with room for
      `room` more words (`argc < max_args - 1`). */
  function TokensFrom(s: string, i: nat, room: int): seq<string>
    requires i <= |s|
    decreases |s| - i, 2
  {
    if i == |s| || room <= 0 then [] else Start(s, i, room)
  }

  /** Skip blanks; stop at the end or at a `#`; otherwise a word begins. */
  function Start(s: string, i: nat, room: int): seq<string>
    requires i <= |s|
    decreases |s| - i, 1
  {
    if i == |s| then []
    else if IsBlank(s[i]) then Start(s, i + 1, room)
    else if s[i] == '#' then []
    else WordFrom(s, i, room, [], false, Nul)
  }

  /** Inside a word: `cur` is what the word holds so far, `inQ` and `qc` the
      quoting state. */
  function WordFrom(s: string, i: nat, room: int, cur: string, inQ: bool, qc: char): seq<string>
    requires i <= |s|
    decreases |s| - i, 0
  {
    if i == |s| then [cur]
    else
      var c := s[i];
      if c == '\\' && i + 1 < |s| then WordFrom(s, i + 2, room, cur + [s[i + 1]], inQ, qc)
      else if IsQuote(c) && !inQ then WordFrom(s, i + 1, room, cur, true, c)
      else if IsQuote(c) && c == qc then WordFrom(s, i + 1, room, cur, false, qc)
      else if !inQ && IsBlank(c) then [cur] + TokensFrom(s, i + 1, room - 1)
      else WordFrom(s, i + 1, room, cur + [c], inQ, qc)
  }

  /** The words `shell_parse_line(line, argv, maxArgs)` returns for the C
      string `s`. */
  function Tokens(s: string, maxArgs: int): seq<string>
  {
    TokensFrom(s, 0, maxArgs - 1)
  }

  // ---------------------------------------------------------------------
  // A reference definition: splitting at blanks.

  /** The maximal runs of non-blank characters of `s` from index `i`, the
      run in progress being `cur`. */
  function SplitFrom(s: string, i: nat, cur: string): seq<string>
    requires i <= |s|
    decreases |s| - i
  {
    if i == |s| then (if cur == [] then [] else [cur])
    else if IsBlank(s[i]) then (if cur == [] then [] else [cur]) + SplitFrom(s, i + 1, [])
    else SplitFrom(s, i + 1, cur + [s[i]])
  }

  function Fields(s: string): seq<string> { SplitFrom(s, 0, []) }

  /** No quoting, escaping or comment character. */
  predicate Plain(s: string)
  {
    forall k :: 0 <= k < |s| ==> !IsQuote(s[k]) && s[k] != '\\' && s[k] != '#'
  }

  // ---------------------------------------------------------------------
  // Properties of the word splitter.

  /** At most `room` words are produced (so `argv[argc]` always exists). */
  lemma {:induction false} TokensFromBound(s: string, i: nat, room: int)
    requires i <= |s|
    ensures |TokensFrom(s, i, room)| <= (if room <= 0 then 0 else room)
    decreases |s| - i, 2
  {
    if i < |s| && room > 0 { StartBound(s, i, room); }
  }

  lemma {:induction false} StartBound(s: string, i: nat, room: int)
    requires i <= |s| && room >= 1
    ensures |Start(s, i, room)| <= room
    decreases |s| - i, 1
  {
    if i < |s| {
      if IsBlank(s[i]) { StartBound(s, i + 1, room); }
      else if s[i] != '#' { WordFromBound(s, i, room, [], false, Nul); }
    }
  }

  lemma {:induction false} WordFromBound(s: string, i: nat, room: int, cur: string, inQ: bool, qc: char)
    requires i <= |s| && room >= 1
    ensures 1 <= |WordFrom(s, i, room, cur, inQ, qc)| <= room
    decreases |s| - i, 0
  {
    if i < |s| {
      var c := s[i];
      if c == '\\' && i + 1 < |s| { WordFromBound(s, i + 2, room, cur + [s[i + 1]], inQ, qc); }
      else if IsQuote(c) && !inQ { WordFromBound(s, i + 1, room, cur, true, c); }
      else if IsQuote(c) && c == qc { WordFromBound(s, i + 1, room, cur, false, qc); }
      else if !inQ && IsBlank(c) { TokensFromBound(s, i + 1, room - 1); }
      else { WordFromBound(s, i + 1, room, cur + [c], inQ, qc); }
    }
  }

  lemma TokensBound(s: string, maxArgs: int)
    requires maxArgs >= 1
    ensures |Tokens(s, maxArgs)| <= maxArgs - 1
  {
    TokensFromBound(s, 0, maxArgs - 1);
  }

  /** Every word is made of characters of the line; in particular a line
      without NUL yields words without NUL. */
  lemma {:induction false} TokensFromChars(s: string, i: nat, room: int, c: char)
    requires i <= |s| && c !in s
    ensures forall w :: w in TokensFrom(s, i, room) ==> c !in w
    decreases |s| - i, 2
  {
    if i < |s| && room > 0 { StartChars(s, i, room, c); }
  }

  lemma {:induction false} StartChars(s: string, i: nat, room: int, c: char)
    requires i <= |s| && c !in s
    ensures forall w :: w in Start(s, i, room) ==> c !in w
    decreases |s| - i, 1
  {
    if i < |s| {
      if IsBlank(s[i]) { StartChars(s, i + 1, room, c); }
      else if s[i] != '#' { WordFromChars(s, i, room, [], false, Nul, c); }
    }
  }

  lemma {:induction false} WordFromChars(s: string, i: nat, room: int, cur: string, inQ: bool, qc: char, c: char)
    requires i <= |s| && c !in s && c !in cur
    ensures forall w :: w in WordFrom(s, i, room, cur, inQ, qc) ==> c !in w
    decreases |s| - i, 0
  {
    if i < |s| {
      var d := s[i];
      if d == '\\' && i + 1 < |s| { WordFromChars(s, i + 2, room, cur + [s[i + 1]], inQ, qc, c); }
      else if IsQuote(d) && !inQ { WordFromChars(s, i + 1, room, cur, true, d, c); }
      else if IsQuote(d) && d == qc { WordFromChars(s, i + 1, room, cur, false, qc, c); }
      else if !inQ && IsBlank(d) { TokensFromChars(s, i + 1, room - 1, c); }
      else { WordFromChars(s, i + 1, room, cur + [d], inQ, qc, c); }
    }
  }

  /** The word limit only cuts the list: a smaller limit yields a prefix of
      the words a larger one yields. */
  lemma {:induction false} TokensFromPrefix(s: string, i: nat, room: int, room': int)
    requires i <= |s| && room <= room'
    ensures TokensFrom(s, i, room) <= TokensFrom(s, i, room')
    decreases |s| - i, 2
  {
    if i < |s| && room > 0 { StartPrefix(s, i, room, room'); }
  }

  lemma {:induction false} StartPrefix(s: string, i: nat, room: int, room': int)
    requires i <= |s| && room <= room'
    ensures Start(s, i, room) <= Start(s, i, room')
    decreases |s| - i, 1
  {
    if i < |s| {
      if IsBlank(s[i]) { StartPrefix(s, i + 1, room, room'); }
      else if s[i] != '#' { WordFromPrefix(s, i, room, room', [], false, Nul); }
    }
  }

  lemma {:induction false} WordFromPrefix(s: string, i: nat, room: int, room': int, cur: string, inQ: bool, qc: char)
    requires i <= |s| && room <= room'
    ensures WordFrom(s, i, room, cur, inQ, qc) <= WordFrom(s, i, room', cur, inQ, qc)
    decreases |s| - i, 0
  {
    if i < |s| {
      var c := s[i];
      if c == '\\' && i + 1 < |s| { WordFromPrefix(s, i + 2, room, room', cur + [s[i + 1]], inQ, qc); }
      else if IsQuote(c) && !inQ { WordFromPrefix(s, i + 1, room, room', cur, true, c); }
      else if IsQuote(c) && c == qc { WordFromPrefix(s, i + 1, room, room', cur, false, qc); }
      else if !inQ && IsBlank(c) { TokensFromPrefix(s, i + 1, room - 1, room' - 1); }
      else { WordFromPrefix(s, i + 1, room, room', cur + [c], inQ, qc); }
    }
  }

  lemma TokensPrefix(s: string, m: int, m': int)
    requires m <= m'
    ensures Tokens(s, m) <= Tokens(s, m')
  {
    TokensFromPrefix(s, 0, m - 1, m' - 1);
  }

  /** On a line without quotes, backslashes or `#`, and with fewer words than
      the limit, the splitter yields exactly the blank-separated fields. */
  lemma {:induction false} PlainTokensFrom(s: string, i: nat, room: int)
    requires i <= |s| && Plain(s)
    requires |SplitFrom(s, i, [])| <= room
    ensures TokensFrom(s, i, room) == SplitFrom(s, i, [])
    decreases |s| - i, 2
  {
    if i < |s| && room > 0 { PlainStart(s, i, room); }
    else if i < |s| { SplitEmpty(s, i); }
  }

  /** A room-0 budget only matches a line with no fields left. */
  lemma {:induction false} SplitEmpty(s: string, i: nat)
    requires i <= |s|
    requires |SplitFrom(s, i, [])| <= 0
    ensures forall k :: i <= k < |s| ==> IsBlank(s[k])
    decreases |s| - i
  {
    if i < |s| {
      if IsBlank(s[i]) { SplitEmpty(s, i + 1); }
      else {
        assert [] + [s[i]] == [s[i]];
        SplitNonEmpty(s, i + 1, [s[i]]);
      }
    }
  }

  lemma {:induction false} SplitNonEmpty(s: string, i: nat, cur: string)
    requires i <= |s| && cur != []
    ensures |SplitFrom(s, i, cur)| >= 1
    decreases |s| - i
  {
    if i == |s| {
      assert SplitFrom(s, i, cur) == [cur];
    } else if IsBlank(s[i]) {
      assert SplitFrom(s, i, cur) == [cur] + SplitFrom(s, i + 1, []);
    } else {
      SplitNonEmpty(s, i + 1, cur + [s[i]]);
    }
  }

  lemma {:induction false} PlainStart(s: string, i: nat, room: int)
    requires i <= |s| && Plain(s) && room >= 1
    requires |SplitFrom(s, i, [])| <= room
    ensures Start(s, i, room) == SplitFrom(s, i, [])
    decreases |s| - i, 1
  {
    if i < |s| {
      if IsBlank(s[i]) {
        PlainStart(s, i + 1, room);
      } else {
        assert s[i] != '\\' && !IsQuote(s[i]) && s[i] != '#';
        assert [] + [s[i]] == [s[i]];
        PlainWord(s, i + 1, room, [s[i]]);
      }
    }
  }

  lemma {:induction false} PlainWord(s: string, i: nat, room: int, cur: string)
    requires i <= |s| && Plain(s) && room >= 1 && cur != []
    requires |SplitFrom(s, i, cur)| <= room
    ensures WordFrom(s, i, room, cur, false, Nul) == SplitFrom(s, i, cur)
    decreases |s| - i, 0
  {
    if i < |s| {
      var c := s[i];
      assert c != '\\' && !IsQuote(c);
      if IsBlank(c) {
        PlainTokensFrom(s, i + 1, room - 1);
      } else {
        PlainWord(s, i + 1, room, cur + [c]);
      }
    }
  }

  lemma PlainTokens(s: string, maxArgs: int)
    requires Plain(s) && |Fields(s)| < maxArgs
    ensures Tokens(s, maxArgs) == Fields(s)
  {
    PlainTokensFrom(s, 0, maxArgs - 1);
  }

  /** A run of non-blank characters joins the field in progress. */
  lemma {:induction false} SplitRun(s: string, i: nat, j: nat, cur: string)
    requires i <= j <= |s|
    requires forall k :: i <= k < j ==> !IsBlank(s[k])
    ensures SplitFrom(s, i, cur) == SplitFrom(s, j, cur + s[i..j])
    decreases j - i
  {
    if i < j {
      SplitRun(s, i + 1, j, cur + [s[i]]);
      assert cur + [s[i]] + s[i + 1..j] == cur + s[i..j];
    } else {
      assert cur + s[i..j] == cur;
    }
  }

  /** Splitting does not look behind the index it stands at. */
  lemma {:induction false} SplitShift(p: string, t: string, i: nat, cur: string)
    requires i <= |t|
    ensures SplitFrom(p + t, |p| + i, cur) == SplitFrom(t, i, cur)
    decreases |t| - i
  {
    if i < |t| {
      assert (p + t)[|p| + i] == t[i];
      SplitShift(p, t, i + 1, if IsBlank(t[i]) then [] else cur + [t[i]]);
    }
  }

  /** Inside quotes, every character up to the closing quote is taken
      literally (blanks and the other quote character included) and the two
      quote characters vanish. */
  lemma {:induction false} QuotedSection(s: string, i: nat, j: nat, room: int, cur: string, qc: char)
    requires i < j < |s| && IsQuote(s[i]) && s[j] == s[i]
    requires forall k :: i < k < j ==> s[k] != s[i] && s[k] != '\\'
    ensures WordFrom(s, i, room, cur, false, qc) == WordFrom(s, j + 1, room, cur + s[i + 1..j], false, s[i])
  {
    InsideQuotes(s, i + 1, j, room, cur, s[i]);
  }

  lemma {:induction false} InsideQuotes(s: string, k: nat, j: nat, room: int, cur: string, q: char)
    requires k <= j < |s| && IsQuote(q) && s[j] == q
    requires forall m :: k <= m < j ==> s[m] != q && s[m] != '\\'
    ensures WordFrom(s, k, room, cur, true, q) == WordFrom(s, j + 1, room, cur + s[k..j], false, q)
    decreases j - k
  {
    if k == j {
      assert cur + s[k..j] == cur;
    } else {
      InsideQuotes(s, k + 1, j, room, cur + [s[k]], q);
      assert cur + [s[k]] + s[k + 1..j] == cur + s[k..j];
    }
  }

  /** A quote that is never closed, with no backslash after it, runs to the
      end of the line: the rest of the line, blanks included, ends the last
      word. */
  lemma {:induction false} UnclosedQuote(s: string, k: nat, room: int, cur: string, q: char)
    requires k <= |s| && IsQuote(q)
    requires forall m :: k <= m < |s| ==> s[m] != q && s[m] != '\\'
    ensures WordFrom(s, k, room, cur, true, q) == [cur + s[k..]]
    decreases |s| - k
  {
    if k == |s| {
      assert cur + s[k..] == cur;
    } else {
      UnclosedQuote(s, k + 1, room, cur + [s[k]], q);
      assert cur + [s[k]] + s[k + 1..] == cur + s[k..];
    }
  }

  /** `a "b c" d` gives the words `a`, `b c` and `d`; `a "b c` gives `a`
      and `b c` (with the 32 argument slots of `shell_execute`). */
  lemma QuoteExamples()
    ensures Tokens("a \"b c\" d", 32) == ["a", "b c", "d"]
    ensures Tokens("a \"b c", 32) == ["a", "b c"]
  {
    var s := "a \"b c\" d";
    assert WordFrom(s, 8, 29, [], false, Nul) == ["d"] by {
      assert WordFrom(s, 9, 29, "d", false, Nul) == ["d"];
      assert [] + [s[8]] == "d";
    }
    assert TokensFrom(s, 8, 29) == ["d"];
    assert s[3..6] == "b c";
    assert WordFrom(s, 7, 30, "b c", false, '"') == ["b c"] + TokensFrom(s, 8, 29);
    QuotedSection(s, 2, 6, 30, [], Nul);
    assert [] + s[3..6] == "b c" && s[2] == '"';
    assert WordFrom(s, 2, 30, [], false, Nul) == ["b c", "d"];
    assert TokensFrom(s, 2, 30) == ["b c", "d"];
    assert WordFrom(s, 1, 31, "a", false, Nul) == ["a"] + TokensFrom(s, 2, 30);
    assert [] + [s[0]] == "a";
    assert TokensFrom(s, 0, 31) == WordFrom(s, 0, 31, [], false, Nul);
    var t := "a \"b c";
    UnclosedQuote(t, 3, 30, [], '"');
    assert [] + t[3..] == "b c";
    assert WordFrom(t, 2, 30, [], false, Nul) == WordFrom(t, 3, 30, [], true, '"');
    assert WordFrom(t, 1, 31, "a", false, Nul) == ["a"] + TokensFrom(t, 2, 30);
    assert [] + [t[0]] == "a";
    assert TokensFrom(t, 0, 31) == WordFrom(t, 0, 31, [], false, Nul);
  }

  /** A backslash outside the last character keeps the next character
      whatever it is (a blank, a quote, a `#` or another backslash). */
  lemma Escape(s: string, i: nat, room: int, cur: string, inQ: bool, qc: char)
    requires i + 1 < |s| && s[i] == '\\'
    ensures WordFrom(s, i, room, cur, inQ, qc) == WordFrom(s, i + 2, room, cur + [s[i + 1]], inQ, qc)
  {
  }

  /** A `#` that begins a word ends the line; inside a word it is an
      ordinary character. */
  lemma Comment(s: string, i: nat, room: int)
    requires i < |s| && s[i] == '#' && room >= 1
    ensures TokensFrom(s, i, room) == []
  {
  }

  // ---------------------------------------------------------------------
  // The in-place splitter.

  /** Buffer index `p` holds index `i` of the line `s`: `s[i..]` followed
      by a NUL is laid out from `p`. */
  ghost predicate Rest(buf: seq<char>, p: int, s: string, i: int)
  {
    0 <= p && 0 <= i <= |s| && p + |s| - i < |buf|
    && (forall j :: i <= j < |s| ==> buf[p + j - i] == s[j])
    && buf[p + |s| - i] == Nul
  }

  /** Reading the buffer at `p`: the NUL exactly at the end of the line. */
  lemma RestAt(buf: seq<char>, p: int, s: string, i: int)
    requires Nul !in s && Rest(buf, p, s, i)
    ensures i < |s| <==> buf[p] != Nul
    ensures i < |s| ==> buf[p] == s[i]
  {
    if i < |s| { assert buf[p + i - i] == s[i]; }
  }

  /** Stepping over one character of the line. */
  lemma RestAdvance(buf: seq<char>, p: int, s: string, i: int)
    requires Rest(buf, p, s, i) && i < |s|
    ensures buf[p] == s[i] && Rest(buf, p + 1, s, i + 1)
  {
    assert buf[p + i - i] == s[i];
  }

  /** `memmove(p, p + 1, strlen(p))` on a buffer where `p` holds index `i`
      of the line `s`: the character at `p` is deleted and the rest of the
      C string moves one place left. */
  method DeleteAt(line: array<char>, p: int, ghost s: string, ghost i: int)
    requires Nul !in s && Rest(line[..], p, s, i) && i < |s|
    modifies line
    ensures forall j :: 0 <= j < p ==> line[j] == old(line[j])
    ensures Rest(line[..], p, s, i + 1)
  {
    ghost var e := p + |s| - i;
    assert forall k :: p <= k < e ==> line[k] == s[i + k - p];
    var k := p;
    while line[k] != Nul
      invariant p <= k <= e
      invariant forall j :: 0 <= j < p ==> line[j] == old(line[j])
      invariant forall j :: p <= j < k ==> line[j] == old(line[j + 1])
      invariant forall j :: k <= j < line.Length ==> line[j] == old(line[j])
      decreases e - k
    {
      line[k] := line[k + 1];
      k := k + 1;
    }
    forall j | i + 1 <= j < |s| ensures line[p + j - (i + 1)] == s[j] {
      assert line[p + j - (i + 1)] == old(line[p + j - i]);
    }
  }

  /** The inner loop of `shell_parse_line`: scan one word that starts at
      buffer index `q`, which holds original index `i0` of the line `s`.
      On return the word is laid out from `q` to `p`; `p` holds either the
      NUL at the end of the line (`i == |s|`) or the unquoted blank that
      ended the word. */
  method ScanWord(line: array<char>, q: int, ghost s: string, ghost i0: int, ghost room: int)
      returns (p: int, inQuote: bool, ghost i: int, ghost cur: string)
    requires Nul !in s && Rest(line[..], q, s, i0)
    modifies line
    ensures q <= p && Rest(line[..], p, s, i)
    ensures forall j :: 0 <= j < q ==> line[j] == old(line[j])
    ensures p - q == |cur| && Nul !in cur
    ensures forall j :: 0 <= j < |cur| ==> line[q + j] == cur[j]
    ensures i < |s| ==> !inQuote && IsBlank(s[i])
    ensures i0 < |s| && !IsBlank(s[i0]) ==> i0 < i
    ensures WordFrom(s, i0, room, [], false, Nul) ==
            if i == |s| then [cur] else [cur] + TokensFrom(s, i + 1, room - 1)
  {
    p, i, cur := q, i0, [];
    inQuote := false;
    var quoteChar := Nul;
    ghost var a0 := line[..];
    while line[p] != Nul
      invariant Scanning(line[..], a0, q, p, s, i0, i, room, cur, inQuote, quoteChar)
      decreases |s| - i
    {
      var stop;
      p, inQuote, quoteChar, i, cur, stop := ScanChar(line, q, p, inQuote, quoteChar, s, a0, i0, i, room, cur);
      if stop {
        break;
      }
    }
    RestAt(line[..], p, s, i);
  }

  /** The state of the word scan: the buffer from `p` on holds the line from
      `i` on, the word so far `cur` is laid out from `q`, nothing before `q`
      has changed, and the words still to come are those of the line read
      from `i`. */
  ghost predicate Scanning(a: seq<char>, a0: seq<char>, q: int, p: int, s: string, i0: int, i: int,
                           room: int, cur: string, inQuote: bool, quoteChar: char)
  {
    && 0 <= q <= p && Rest(a, p, s, i) && |a| == |a0| && i0 <= i
    && (forall j :: 0 <= j < q ==> a[j] == a0[j])
    && p - q == |cur| && Nul !in cur
    && (forall j :: 0 <= j < |cur| ==> a[q + j] == cur[j])
    && 0 <= i0 && WordFrom(s, i0, room, [], false, Nul) == WordFrom(s, i, room, cur, inQuote, quoteChar)
  }

  /** One pass of the word scan at a character that is not the NUL: an
      escape takes the next character, a quote opens or closes a quoted
      part and is deleted, an unquoted blank stops the scan, and any other
      character joins the word. */
  method ScanChar(line: array<char>, q: int, p: int, inQuote: bool, quoteChar: char, ghost s: string,
                  ghost a0: seq<char>, ghost i0: int, ghost i: int, ghost room: int, ghost cur: string)
      returns (p': int, inQuote': bool, quoteChar': char, ghost i': int, ghost cur': string, stop: bool)
    requires Nul !in s && Scanning(line[..], a0, q, p, s, i0, i, room, cur, inQuote, quoteChar)
    requires line[p] != Nul
    modifies line
    ensures Scanning(line[..], a0, q, p', s, i0, i', room, cur', inQuote', quoteChar')
    ensures stop ==> i' < |s| && !inQuote' && IsBlank(s[i'])
    ensures !stop ==> i < i'
  {
    p', inQuote', quoteChar', i', cur', stop := p, inQuote, quoteChar, i, cur, false;
    RestAt(line[..], p, s, i);
    RestAdvance(line[..], p, s, i);
    RestAt(line[..], p + 1, s, i + 1);
    if line[p] == '\\' && line[p + 1] != Nul {
      DeleteAt(line, p, s, i);
      RestAdvance(line[..], p, s, i + 1);
      p', i', cur' := p + 1, i + 2, cur + [s[i + 1]];
    } else if (line[p] == '"' || line[p] == '\'') && (!inQuote || line[p] == quoteChar) {
      inQuote', quoteChar' := !inQuote, if inQuote then quoteChar else line[p];
      DeleteAt(line, p, s, i);
      i' := i + 1;
    } else if !inQuote && (line[p] == ' ' || line[p] == '\t') {
      stop := true;
    } else {
      cur' := cur + [line[p]];
      p', i' := p + 1, i + 1;
    }
  }

  /** `if (*p != '\0') *p++ = '\0';`: end the word just scanned. */
  method EndWord(line: array<char>, p: int, ghost s: string, ghost i: int) returns (p': int, ghost i': int)
    requires Nul !in s && Rest(line[..], p, s, i)
    modifies line
    ensures forall j :: 0 <= j < p ==> line[j] == old(line[j])
    ensures line[p] == Nul && Rest(line[..], p', s, i')
    ensures i' == (if i < |s| then i + 1 else i) && p' == p + i' - i
  {
    if line[p] != Nul {
      RestAt(line[..], p, s, i);
      ghost var b := line[..];
      RestAdvance(b, p, s, i);
      line[p] := Nul;
      assert line[..] == b[p := Nul];
      return p + 1, i + 1;
    }
    RestAt(line[..], p, s, i);
    return p, i;
  }

  /** One pass of the outer loop of `shell_parse_line` from buffer index
      `p` (original index `i`): skip blanks, stop at the end of the line or
      at a comment, otherwise scan the word that starts at `start`, end it
      with a NUL and move past it. */
  method NextWord(line: array<char>, p: int, inQuote: bool, ghost s: string, ghost i: int, ghost room: int)
      returns (found: bool, start: int, p': int, inQuote': bool, ghost i': int, ghost w: string)
    requires Nul !in s && Rest(line[..], p, s, i) && i < |s| && room >= 1
    requires line[p] != Nul ==> !inQuote
    modifies line
    ensures forall j :: 0 <= j < p ==> line[j] == old(line[j])
    ensures !found ==> Start(s, i, room) == []
    ensures found ==> p <= start && start + |w| <= p' && Stored(line[..], start, w)
    ensures found ==> i < i' && Rest(line[..], p', s, i') && (line[p'] != Nul ==> !inQuote')
    ensures found ==> Start(s, i, room) == [w] + TokensFrom(s, i', room - 1)
  {
    RestAt(line[..], p, s, i);
    var q := p;
    ghost var k := i;
    while line[q] == ' ' || line[q] == '\t'
      invariant p <= q && k <= |s| && Rest(line[..], q, s, k)
      invariant Start(s, i, room) == Start(s, k, room)
      invariant line[..] == old(line[..])
      decreases |s| - k
    {
      RestAt(line[..], q, s, k);
      RestAdvance(line[..], q, s, k);
      q, k := q + 1, k + 1;
    }
    RestAt(line[..], q, s, k);
    if line[q] == Nul {
      return false, q, q, inQuote, k, [];
    }
    if line[q] == '#' && !inQuote {
      return false, q, q, inQuote, k, [];
    }
    var scanEnd;
    ghost var e, cur;
    scanEnd, inQuote', e, cur := ScanWord(line, q, s, k, room);
    ghost var mid := line[..];
    assert forall j :: 0 <= j < p ==> mid[j] == old(line[j]);
    p', i' := EndWord(line, scanEnd, s, e);
    assert forall j :: 0 <= j < q + |cur| ==> line[j] == mid[j];
    assert forall j :: 0 <= j < p ==> line[j] == old(line[j]);
    assert Stored(line[..], q, cur);
    return true, q, p', inQuote', i', cur;
  }

  /** `shell_parse_line`: split the C string held in `line` in place and
      store the start index of each word in `argv` (-1 for NULL).  Each
      word is left NUL-terminated in `line` at its `argv` index, and the
      words are exactly `Tokens` of the original line. */
  method ParseLine(line: array<char>, argv: array<int>, maxArgs: int) returns (argc: int)
    requires maxArgs >= 1 && argv.Length >= maxArgs
    requires Nul in line[..]
    modifies line, argv
    ensures argc == |Tokens(CStrAt(old(line[..]), 0), maxArgs)| <= maxArgs - 1
    ensures forall k :: 0 <= k < argc ==>
              Stored(line[..], argv[k], Tokens(CStrAt(old(line[..]), 0), maxArgs)[k])
    ensures argv[argc] == -1
    ensures forall k :: argc < k < argv.Length ==> argv[k] == old(argv[k])
  {
    ghost var s := CStrAt(line[..], 0);
    ghost var toks := Tokens(s, maxArgs);
    CStrAtStored(line[..], 0);
    ghost var i := 0;
    argc := 0;
    var p := 0;
    var inQuote := false;
    while line[p] != Nul && argc < maxArgs - 1
      invariant 0 <= argc <= maxArgs - 1 && argc <= |toks|
      invariant Rest(line[..], p, s, i)
      invariant line[p] != Nul ==> !inQuote
      invariant TokensFrom(s, i, maxArgs - 1 - argc) == toks[argc..]
      invariant forall k :: 0 <= k < argc ==> Stored(line[..], argv[k], toks[k]) && argv[k] + |toks[k]| <= p
      invariant forall k :: argc <= k < argv.Length ==> argv[k] == old(argv[k])
      decreases |s| - i
    {
      RestAt(line[..], p, s, i);
      forall k | 0 <= k < argc ensures argv[k] + |toks[k]| < p {
        assert line[argv[k] + |toks[k]|] == Nul;
      }
      ghost var before := line[..];
      var found, start, p', inQuote';
      ghost var i', w;
      found, start, p', inQuote', i', w := NextWord(line, p, inQuote, s, i, maxArgs - 1 - argc);
      if !found {
        break;
      }
      forall k | 0 <= k < argc ensures Stored(line[..], argv[k], toks[k]) {
        StoredFrame(before, line[..], p, argv[k], toks[k]);
      }
      assert toks[argc..] == [w] + toks[argc + 1..];
      argv[argc] := start;
      argc := argc + 1;
      p, i, inQuote := p', i', inQuote';
    }
    assert |toks| == argc;
    argv[argc] := -1;
  }
}
