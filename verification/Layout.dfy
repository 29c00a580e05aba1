/** Text on its way to a client: out of src/client.c, send_packet of src/server_reqs.c, and strlcat
    and format_noun of src/util.c. */
module Layout {
  import opened Guard
  import B = Bytes

  function Concat(chunks: seq<string>): string {
    if chunks == [] then "" else Concat(chunks[..|chunks| - 1]) + chunks[|chunks| - 1]
  }

  lemma ConcatMore(chunks: seq<string>, s: string)
    ensures Concat(chunks + [s]) == Concat(chunks) + s
  {
    assert (chunks + [s])[..|chunks|] == chunks;
  }

  // out

  predicate Blank(c: char) { c == ' ' || c == '\n' || c == '\r' }

  /** The characters that are not blanks or line ends. */
  function Ink(s: string): string {
    if s == "" then "" else (if Blank(s[0]) then "" else [s[0]]) + Ink(s[1..])
  }

  lemma Joined(a: string, b: string, c: string)
    ensures (a + b) + c == a + (b + c)
  {
  }

  lemma InkCons(c: char, s: string)
    ensures Ink([c] + s) == (if Blank(c) then "" else [c]) + Ink(s)
  {
    assert ([c] + s)[1..] == s;
  }

  lemma {:induction false} InkJoin(a: string, b: string)
    ensures Ink(a + b) == Ink(a) + Ink(b)
  {
    if a == "" {
      assert a + b == b;
    } else {
      var c, rest := a[0], a[1..];
      InkJoin(rest, b);
      assert a == [c] + rest;
      Joined([c], rest, b);
      InkCons(c, rest);
      InkCons(c, rest + b);
      Joined(if Blank(c) then "" else [c], Ink(rest), Ink(b));
    }
  }

  lemma Halves(s: string, n: nat)
    requires n <= |s|
    ensures s[..n] + s[n..] == s
  {
  }

  lemma {:induction false} InkCut(s: string, n: nat)
    requires n <= |s|
    ensures Ink(s) == Ink(s[..n]) + Ink(s[n..])
  {
    Halves(s, n);
    InkJoin(s[..n], s[n..]);
  }

  function SkipBlanks(s: string): (r: string)
    ensures |r| <= |s| && Ink(r) == Ink(s)
  {
    if s != "" && s[0] == ' ' then SkipBlanks(s[1..]) else s
  }

  /** What is left when a line of `n` characters has been cut off: the newline that ended it and
      the blanks that follow are dropped. */
  function AfterLine(s: string, n: nat): string {
    if n < |s| then SkipBlanks(if s[n] == '\n' then s[n + 1..] else s[n..]) else ""
  }

  /** The characters of an output line before its CR LF. */
  function Width(line: string): nat {
    if |line| < 2 then 0 else |line| - 2
  }

  /** A line may end before position `n`, when columns below `from` are taken by earlier output: at
      the first newline, or else, if the text is too long for the line, at the last blank that
      fits, or else where the line is full. */
  ghost predicate LineEnds(s: string, from: nat, width: nat, n: nat) {
    && n < |s| && n <= width
    && if s[n] == '\n' && from <= n then NoneOf('\n', s, from, n)
       else
         && width < |s| && NoneOf('\n', s, from, width)
         && if n < width then s[n] == ' ' && 0 < n && from <= n && NoneOf(' ', s, n + 1, width)
            else NoneOf(' ', s, if from == 0 then 1 else from, width)
  }

  ghost predicate NoneOf(c: char, s: string, lo: nat, hi: nat) {
    forall i :: lo <= i < hi && i < |s| ==> s[i] != c
  }

  /** Where a line is full that starts at column `from`, which may lie beyond the width. */
  function Limit(from: nat, width: nat): nat {
    if from > width then from else width
  }

  /** `lines` are cut off `text` one after the other, and `rest` is what remains. */
  ghost predicate Wraps(text: string, column: nat, width: nat, lines: seq<string>, rest: string)
    decreases |lines|
  {
    if lines == [] then rest == text
    else CutsOff(text, column, Limit(column, width), lines[0]) && Wraps(AfterLine(text, Width(lines[0])), 0, width, lines[1..], rest)
  }

  ghost predicate CutsOff(s: string, from: nat, width: nat, line: string) {
    forall k: nat {:trigger Opened(k)} :: Opened(k) ==>
      2 <= |line| && LineEnds(s, from, width, |line| - 2) && line == s[..|line| - 2] + "\r\n"
  }

  /** Every line has at most `width` characters before its CR LF. */
  ghost predicate FullLines(lines: seq<string>, width: nat) {
    forall i :: 0 <= i < |lines| ==> 2 <= |lines[i]| <= width + 2 && lines[i][|lines[i]| - 2..] == "\r\n"
  }

  lemma CutsOffHere(s: string, from: nat, width: nat, n: nat, line: string)
    requires LineEnds(s, from, width, n) && line == s[..n] + "\r\n"
    ensures CutsOff(s, from, width, line) && Width(line) == n
  {
  }

  lemma InkLine(a: string)
    ensures Ink(a + "\r\n") == Ink(a)
  {
    InkJoin(a, "\r\n");
    assert "\r\n"[1..] == "\n";
  }

  lemma InkAfter(s: string, n: nat)
    requires n < |s|
    ensures Ink(AfterLine(s, n)) == Ink(s[n..])
  {
    assert s[n..][1..] == s[n + 1..];
  }

  lemma CutKeepsInk(s: string, from: nat, width: nat, line: string)
    requires CutsOff(s, from, width, line)
    ensures Ink(line) + Ink(AfterLine(s, Width(line))) == Ink(s)
    ensures 2 <= |line| <= width + 2 && line[|line| - 2..] == "\r\n"
  {
    assert Opened(0);
    var n := |line| - 2;
    InkCut(s, n);
    InkLine(s[..n]);
    InkAfter(s, n);
  }

  lemma {:induction false} ConcatFirst(chunks: seq<string>)
    requires chunks != []
    ensures Concat(chunks) == chunks[0] + Concat(chunks[1..])
  {
    if |chunks| > 1 {
      var front := chunks[..|chunks| - 1];
      ConcatFirst(front);
      assert front[1..] == chunks[1..][..|chunks[1..]| - 1];
    }
  }

  /** Every line fits the width exactly if the column that the first one starts at does. */
  lemma {:induction false} WrapsKeepsWidth(text: string, column: nat, width: nat, lines: seq<string>, rest: string)
    requires Wraps(text, column, width, lines, rest)
    ensures FullLines(lines, Limit(column, width))
    ensures FullLines(lines, width) <==> column <= width || lines == []
    decreases |lines|
  {
    if lines != [] {
      WrapsKeepsWidth(AfterLine(text, Width(lines[0])), 0, width, lines[1..], rest);
      CutKeepsInk(text, column, Limit(column, width), lines[0]);
      assert column > width ==> |lines[0]| == column + 2 by { assert Opened(0); }
      assert forall i :: 0 < i < |lines| ==> lines[i] == lines[1..][i - 1];
    }
  }

  /** The first line, in full, and what is left to be wrapped after it; so it is with every further
      line, which starts at column 0.  A line ends at the first newline, if one comes no later than
      where the line is full; else at the last blank before that; else where it is full.  The newline
      goes, and so do the blanks that follow. */
  lemma WrapsFirst(text: string, column: nat, width: nat, lines: seq<string>, rest: string) returns (n: nat, left: nat)
    requires Wraps(text, column, width, lines, rest) && lines != []
    ensures n < |text| && n <= left <= |text| && lines[0] == text[..n] + "\r\n"
    ensures var full := if column > width then column else width;
            && n <= full && (forall i :: column <= i < n ==> text[i] != '\n')
            && if text[n] == '\n' && column <= n then true
               else
                 && full < |text| && (forall i :: column <= i < full ==> text[i] != '\n')
                 && (if n < full then text[n] == ' ' && 0 < n && column <= n && (forall i :: n < i < full ==> text[i] != ' ')
                     else forall i :: column <= i < full && 0 < i ==> text[i] != ' ')
    ensures forall i :: n <= i < left ==> text[i] == ' ' || (i == n && text[i] == '\n')
    ensures text[n] == '\n' ==> n < left
    ensures left < |text| ==> text[left] != ' '
    ensures Wraps(text[left..], 0, width, lines[1..], rest)
  {
    assert Opened(0);
    n := |lines[0]| - 2;
    left := Dropped(text, n);
  }

  /** How much of the text is gone when its first line has been ended. */
  lemma Dropped(text: string, n: nat) returns (left: nat)
    requires n < |text|
    ensures n <= left <= |text| && AfterLine(text, n) == text[left..]
    ensures forall i :: n <= i < left ==> text[i] == ' ' || (i == n && text[i] == '\n')
    ensures text[n] == '\n' ==> n < left
    ensures left < |text| ==> text[left] != ' '
  {
    var from := if text[n] == '\n' then n + 1 else n;
    Skipped(text[from..]);
    left := |text| - |SkipBlanks(text[from..])|;
    assert text[left..] == text[from..][left - from..];
    forall i | from <= i < left ensures text[i] == ' ' { assert text[i] == text[from..][i - from]; }
  }

  lemma {:induction false} Skipped(s: string)
    ensures var r, k := SkipBlanks(s), |s| - |SkipBlanks(s)|;
            r == s[k..] && (forall i :: 0 <= i < k ==> s[i] == ' ') && (r != "" ==> r[0] != ' ')
  {
    if s != "" && s[0] == ' ' {
      Skipped(s[1..]);
      var k := |s| - |SkipBlanks(s)|;
      forall i | 0 < i < k ensures s[i] == ' ' { assert s[i] == s[1..][i - 1]; }
    }
  }

  lemma InkFirst(lines: seq<string>)
    requires lines != []
    ensures Ink(Concat(lines)) == Ink(lines[0]) + Ink(Concat(lines[1..]))
  {
    ConcatFirst(lines);
    InkJoin(lines[0], Concat(lines[1..]));
  }

  /** Wrapping keeps the visible characters in their order, none lost and none repeated. */
  lemma {:induction false} WrapsKeepsInk(text: string, column: nat, width: nat, lines: seq<string>, rest: string)
    requires Wraps(text, column, width, lines, rest)
    ensures Ink(Concat(lines)) + Ink(rest) == Ink(text)
    decreases |lines|
  {
    if lines != [] {
      WrapsKeepsInk(AfterLine(text, Width(lines[0])), 0, width, lines[1..], rest);
      CutKeepsInk(text, column, Limit(column, width), lines[0]);
      InkFirst(lines);
      Joined(Ink(lines[0]), Ink(Concat(lines[1..])), Ink(rest));
    }
  }

  const OUT_BUFFER: nat := 1024

  function Buffered(message: string): (r: string)
    ensures r <= message && |r| < OUT_BUFFER && (r == message || |r| == OUT_BUFFER - 1)
  {
    if |message| < OUT_BUFFER then message else message[..OUT_BUFFER - 1]
  }

  /** Wraps, for use where its definition need not be seen. */
  ghost predicate Wrapped(text: string, column: nat, width: nat, lines: seq<string>, rest: string) {
    forall k: nat {:trigger Opened(k)} :: Opened(k) ==> Wraps(text, column, width, lines, rest)
  }

  lemma WrapsNothing(text: string, column: nat, width: nat)
    ensures Wrapped(text, column, width, [], text)
  {
  }

  /** What out knows of the current line when it has looked at columns `from` to `pos`. */
  ghost predicate Scanned(s: string, from: nat, pos: nat, lastSpace: nat) {
    forall k: nat {:trigger Opened(k)} :: Opened(k) ==>
      && NoneOf('\n', s, from, pos)
      && if lastSpace == 0 then NoneOf(' ', s, if from == 0 then 1 else from, pos)
         else from <= lastSpace < pos && lastSpace < |s| && s[lastSpace] == ' ' && NoneOf(' ', s, lastSpace + 1, pos)
  }

  lemma ScanStart(s: string, from: nat)
    ensures Scanned(s, from, from, 0)
  {
  }

  lemma ScanStep(s: string, from: nat, pos: nat, lastSpace: nat)
    requires Scanned(s, from, pos, lastSpace) && from <= pos < |s| && s[pos] != '\n'
    ensures Scanned(s, from, pos + 1, if s[pos] == ' ' then pos else lastSpace)
  {
    assert Opened(0);
  }

  lemma ScanBreak(s: string, from: nat, pos: nat, lastSpace: nat, width: nat)
    requires Scanned(s, from, pos, lastSpace) && from <= pos < |s| && pos <= width && (s[pos] == '\n' || pos == width)
    ensures lastSpace < |s| && lastSpace <= pos && (lastSpace > 0 ==> s[lastSpace] == ' ')
    ensures LineEnds(s, from, width, if s[pos] == '\n' || lastSpace == 0 then pos else lastSpace)
  {
    assert Opened(0);
  }

  // the rounds of the loop of out

  datatype Scan = Scan(ptr: string, pos: nat, lastSpace: nat)

  predicate Done(s: Scan) { s.pos >= |s.ptr| }

  /** Whether the next round ends a line, ... */
  predicate Breaks(s: Scan, width: nat) {
    !Done(s) && (s.ptr[s.pos] == '\n' || s.pos >= width)
  }

  /** ... and how long a line. */
  function LineEnd(s: Scan): nat
    requires !Done(s)
  {
    if s.ptr[s.pos] == '\n' || s.lastSpace == 0 then s.pos else s.lastSpace
  }

  /** One round: look at one more column, or end a line. */
  function Round(s: Scan, width: nat): Scan
    requires !Done(s) && s.lastSpace <= s.pos
  {
    if Breaks(s, width) then
      Scan(SkipBlanks(if s.ptr[s.pos] == '\n' then s.ptr[LineEnd(s) + 1..] else s.ptr[LineEnd(s)..]), 0, 0)
    else
      Scan(s.ptr, s.pos + 1, if s.ptr[s.pos] == ' ' then s.pos else s.lastSpace)
  }

  /** Where the loop is after `k` rounds, unless it has ended before. */
  function Rounds(s: Scan, width: nat, k: nat): (r: Scan)
    requires s.lastSpace <= s.pos
    ensures r.lastSpace <= r.pos
    decreases k, 0
  {
    if k == 0 then s
    else
      var t := Rounds(s, width, k - 1);
      if Done(t) then t else Round(t, width)
  }

  ghost predicate Ends(s: Scan, width: nat)
    requires s.lastSpace <= s.pos
  {
    exists k: nat :: Done(Rounds(s, width, k))
  }

  predicate OnlyBlanks(text: string) {
    forall i :: 0 <= i < |text| ==> text[i] == ' ' || text[i] == '\n'
  }

  lemma {:induction false} RoundsFirst(s: Scan, width: nat, k: nat)
    requires s.lastSpace <= s.pos && !Done(s)
    ensures Rounds(s, width, k + 1) == Rounds(Round(s, width), width, k)
    decreases k, 0
  {
    if k > 0 { RoundsFirst(s, width, k - 1); }
  }

  lemma SkippedBlanks(s: string)
    ensures OnlyBlanks(s) ==> OnlyBlanks(SkipBlanks(s))
  {
  }

  /** What keeps the loop going on: a width, or nothing but blanks from the column on. */
  ghost predicate GetsOn(ptr: string, pos: nat, width: nat) {
    forall n: nat {:trigger Opened(n)} :: Opened(n) ==> width >= 1 || |ptr| <= pos || OnlyBlanks(ptr[pos..])
  }

  lemma GetsOnLine(s: Scan, width: nat)
    requires GetsOn(s.ptr, s.pos, width) && s.lastSpace <= s.pos && Breaks(s, width) && (width == 0 ==> s.lastSpace == 0)
    ensures GetsOn(Round(s, width).ptr, 0, width)
    ensures s.pos == 0 && s.ptr[0] != '\n' && width == 0 ==> s.ptr[0] == ' '
  {
    assert Opened(0);
    var rest := s.ptr[s.pos..];
    assert rest[0] == s.ptr[s.pos] && rest[1..] == s.ptr[s.pos + 1..];
    SkippedBlanks(rest);
    SkippedBlanks(rest[1..]);
    assert Round(s, width).ptr[0..] == Round(s, width).ptr;
  }

  /** Every round of a terminal with a width, or on blanks, gets on. */
  lemma RoundShrinks(s: Scan, width: nat)
    requires s.lastSpace <= s.pos && !Done(s) && GetsOn(s.ptr, s.pos, width) && (width == 0 ==> s.lastSpace == 0)
    ensures var t := Round(s, width);
            && (|t.ptr| < |s.ptr| || (t.ptr == s.ptr && t.pos == s.pos + 1))
            && GetsOn(t.ptr, t.pos, width) && (width == 0 ==> t.lastSpace == 0)
  {
    if Breaks(s, width) {
      GetsOnLine(s, width);
    } else {
      assert width >= 1;
    }
  }

  lemma {:induction false} RoundsEnd(s: Scan, width: nat)
    requires s.lastSpace <= s.pos && GetsOn(s.ptr, s.pos, width) && (width == 0 ==> s.lastSpace == 0)
    ensures Ends(s, width)
    decreases |s.ptr|, |s.ptr| - s.pos
  {
    if Done(s) {
      assert Rounds(s, width, 0) == s;
    } else {
      RoundShrinks(s, width);
      RoundsEnd(Round(s, width), width);
      EndsBefore(s, width);
    }
  }

  lemma EndsBefore(s: Scan, width: nat)
    requires s.lastSpace <= s.pos && !Done(s) && Ends(Round(s, width), width)
    ensures Ends(s, width)
  {
    var n: nat :| Done(Rounds(Round(s, width), width, n));
    RoundsFirst(s, width, n);
    assert Done(Rounds(s, width, n + 1));
  }

  lemma {:induction false} StillInk(s: string)
    requires !OnlyBlanks(s)
    ensures !OnlyBlanks(SkipBlanks(s)) && SkipBlanks(s) != ""
  {
    if s[0] == ' ' {
      assert forall i :: 0 < i < |s| ==> s[i] == s[1..][i - 1];
      StillInk(s[1..]);
    }
  }

  /** Without a width no round gets past a character that is neither blank nor newline. */
  lemma {:induction false} NoWidthNoEnd(s: Scan, k: nat)
    requires s.pos == 0 == s.lastSpace && !OnlyBlanks(s.ptr)
    ensures var t := Rounds(s, 0, k);
            t.pos == 0 == t.lastSpace && !OnlyBlanks(t.ptr) && !Done(t)
    decreases k, 0
  {
    if k > 0 {
      NoWidthNoEnd(s, k - 1);
      NoWidthRound(Rounds(s, 0, k - 1));
    }
  }

  lemma NoWidthRound(s: Scan)
    requires s.pos == 0 == s.lastSpace && !OnlyBlanks(s.ptr)
    ensures !Done(s)
    ensures var t := Round(s, 0);
            t.pos == 0 == t.lastSpace && !OnlyBlanks(t.ptr) && !Done(t)
  {
    if s.ptr[0] == '\n' {
      assert forall i :: 0 < i < |s.ptr| ==> s.ptr[i] == s.ptr[1..][i - 1];
      StillInk(s.ptr[1..]);
    } else {
      assert s.ptr[0..] == s.ptr;
      StillInk(s.ptr);
    }
  }

  /** When the loop comes to an end: always with room for a character, and else exactly if there is
      nothing but blanks from the column on. */
  lemma RoundsEndWhen(text: string, column: nat, width: nat)
    ensures Ends(Scan(text, column, 0), width) <==> width >= 1 || |text| <= column || OnlyBlanks(text[column..])
  {
    var s := Scan(text, column, 0);
    if width >= 1 || |text| <= column || OnlyBlanks(text[column..]) {
      RoundsEnd(s, width);
    } else {
      FirstOfNone(s);
      forall k: nat ensures !Done(Rounds(s, 0, k)) {
        if k > 0 {
          RoundsFirst(s, 0, k - 1);
          NoWidthNoEnd(Round(s, 0), k - 1);
        }
      }
    }
  }

  lemma FirstOfNone(s: Scan)
    requires s.lastSpace == 0 && !Done(s) && !OnlyBlanks(s.ptr[s.pos..])
    ensures var t := Round(s, 0); t.pos == 0 == t.lastSpace && !OnlyBlanks(t.ptr)
  {
    var rest := s.ptr[s.pos..];
    assert rest[0] == s.ptr[s.pos] && rest[1..] == s.ptr[s.pos + 1..];
    if rest[0] == '\n' {
      assert forall i :: 0 < i < |rest| ==> rest[i] == rest[1..][i - 1];
      StillInk(rest[1..]);
    } else {
      StillInk(rest);
    }
  }

  // the lines it ends

  /** Every line ended in any round has at most `limit` characters. */
  ghost predicate LinesWithin(s: Scan, width: nat, limit: nat)
    requires s.lastSpace <= s.pos
  {
    forall k: nat :: LineWithin(Rounds(s, width, k), width, limit)
  }

  predicate LineWithin(s: Scan, width: nat, limit: nat) {
    Breaks(s, width) ==> LineEnd(s) <= limit
  }

  lemma {:induction false} RoundsWithin(s: Scan, width: nat, limit: nat, k: nat)
    requires s.lastSpace <= s.pos && width <= limit && (s.pos <= limit || Done(s))
    ensures var t := Rounds(s, width, k); t.pos <= limit || Done(t)
    decreases k, 0
  {
    if k > 0 { RoundsWithin(s, width, limit, k - 1); }
  }

  /** The column that is carried over is the one thing that can make a line too long. */
  lemma LinesWithinWhen(text: string, column: nat, width: nat, limit: nat)
    requires width <= limit
    ensures LinesWithin(Scan(text, column, 0), width, limit) <==> column <= limit || |text| <= column
  {
    var s := Scan(text, column, 0);
    if column <= limit || |text| <= column {
      forall k: nat ensures LineWithin(Rounds(s, width, k), width, limit) { RoundsWithin(s, width, limit, k); }
    } else {
      assert Rounds(s, width, 0) == s && !LineWithin(s, width, limit);
    }
  }

  // the terminal's width, as out takes it

  const UINT16_LIMIT: nat := 0x1_0000

  /** line_width, a 16-bit sum: 0 for the widest terminal. */
  function LineWidth(width: nat): nat {
    (width + 1) % UINT16_LIMIT
  }

  /** The column at which a line is full; `line_width - 1` may be -1, which every column reaches. */
  function Columns(width: nat): (r: nat)
    ensures width < UINT16_LIMIT - 1 ==> r == width
    ensures width == UINT16_LIMIT - 1 ==> r == 0
  {
    if LineWidth(width) == 0 then 0 else LineWidth(width) - 1
  }

  /** The size of line_buf. */
  function LineBuffer(width: nat): nat { LineWidth(width) + 2 }

  /** out comes to an end exactly if a line has room for a character, or the text does not reach
      beyond the column, or has only blanks there. */
  lemma OutEnds(text: string, column: nat, width: nat)
    ensures Ends(Scan(text, column, 0), Columns(width))
            <==> LineWidth(width) >= 2 || |text| <= column || OnlyBlanks(text[column..])
  {
    RoundsEndWhen(text, column, Columns(width));
  }

  /** Its lines fit the terminal exactly if the column does, or the text does not reach beyond it. */
  lemma OutKeepsWidth(text: string, column: nat, width: nat)
    requires LineWidth(width) >= 1
    ensures LinesWithin(Scan(text, column, 0), Columns(width), LineWidth(width) - 1)
            <==> column <= LineWidth(width) - 1 || |text| <= column
  {
    LinesWithinWhen(text, column, Columns(width), LineWidth(width) - 1);
  }

  /** With their CR LF they fit line_buf exactly if the column is at most one too far. */
  lemma OutKeepsBuffer(text: string, column: nat, width: nat)
    ensures LinesWithin(Scan(text, column, 0), Columns(width), LineBuffer(width) - 2)
            <==> column <= LineWidth(width) || |text| <= column
  {
    LinesWithinWhen(text, column, Columns(width), LineWidth(width));
  }

  /** The widest terminal there is: out never gets past the first letter. */
  lemma WidestTerminal()
    ensures LineWidth(65535) == 0 && !Ends(Scan("x", 0, 0), Columns(65535))
  {
    assert "x"[0..] == "x" && "x"[0] == 'x';
    OutEnds("x", 0, 65535);
  }

  /** A terminal of 80 columns made one of 40 while the cursor is in column 60: the next line is
      longer than the new width, and than its buffer. */
  lemma NarrowedTerminal(text: string)
    requires |text| > 60
    ensures !LinesWithin(Scan(text, 60, 0), Columns(40), 40) && !LinesWithin(Scan(text, 60, 0), Columns(40), LineBuffer(40) - 2)
  {
    OutKeepsWidth(text, 60, 40);
    OutKeepsBuffer(text, 60, 40);
  }

  /** A state of the loop, for use where the rounds before it need not be seen. */
  ghost predicate Reached(start: Scan, width: nat, s: Scan) {
    forall n: nat {:trigger Opened(n)} :: Opened(n) ==>
      start.lastSpace <= start.pos && s.lastSpace <= s.pos && exists k: nat :: Rounds(start, width, k) == s
  }

  lemma ReachedStart(start: Scan, width: nat)
    requires start.lastSpace <= start.pos
    ensures Reached(start, width, start)
  {
    assert Rounds(start, width, 0) == start;
  }

  /** The branch that ends a line ... */
  lemma ReachedLine(start: Scan, width: nat, s: Scan, n: nat, rest: string)
    requires Reached(start, width, s) && Breaks(s, width) && n == LineEnd(s) < |s.ptr|
    requires (s.ptr[n] == '\n' <==> s.ptr[s.pos] == '\n') && rest == AfterLine(s.ptr, n)
    ensures Reached(start, width, Scan(rest, 0, 0))
  {
    assert Opened(0);
    var k: nat :| Rounds(start, width, k) == s;
    RoundLine(s, width, n);
    assert Rounds(start, width, k + 1) == Round(s, width);
  }

  lemma RoundLine(s: Scan, width: nat, n: nat)
    requires s.lastSpace <= s.pos && Breaks(s, width) && n == LineEnd(s)
    requires s.ptr[n] == '\n' <==> s.ptr[s.pos] == '\n'
    ensures Round(s, width) == Scan(AfterLine(s.ptr, n), 0, 0)
  {
  }

  /** ... and the one that goes on. */
  lemma ReachedNext(start: Scan, width: nat, s: Scan)
    requires Reached(start, width, s) && !Done(s) && s.ptr[s.pos] != '\n' && s.pos < width
    ensures Reached(start, width, Scan(s.ptr, s.pos + 1, if s.ptr[s.pos] == ' ' then s.pos else s.lastSpace))
  {
    assert Opened(0);
    var k: nat :| Rounds(start, width, k) == s;
    assert Rounds(start, width, k + 1) == Round(s, width);
  }

  /** The column where the current line starts. */
  ghost function From(column: nat, lines: seq<string>): nat {
    if lines == [] then column else 0
  }

  /** All that out keeps while it has ended `lines` and stands at `s`. */
  ghost predicate Underway(text: string, column: nat, width: nat, lines: seq<string>, s: Scan) {
    forall n: nat {:trigger Sealed(n)} :: Sealed(n) ==>
      && From(column, lines) <= s.pos <= Limit(From(column, lines), width) && (s.pos > |s.ptr| ==> s.pos == From(column, lines))
      && s.lastSpace <= s.pos && (width == 0 ==> s.lastSpace == 0)
      && Wrapped(text, column, width, lines, s.ptr)
      && Scanned(s.ptr, From(column, lines), s.pos, s.lastSpace)
      && Reached(Scan(text, column, 0), width, s) && GetsOn(s.ptr, s.pos, width)
  }

  lemma UnderwayStart(text: string, column: nat, width: nat)
    requires width >= 1 || |text| <= column || OnlyBlanks(text[column..])
    ensures Underway(text, column, width, [], Scan(text, column, 0))
  {
    ReachedStart(Scan(text, column, 0), width);
    WrapsNothing(text, column, width);
    ScanStart(text, column);
  }

  lemma UnderwayNext(text: string, column: nat, width: nat, lines: seq<string>, s: Scan)
    requires Underway(text, column, width, lines, s) && !Done(s) && !Breaks(s, width)
    ensures Underway(text, column, width, lines, Scan(s.ptr, s.pos + 1, if s.ptr[s.pos] == ' ' then s.pos else s.lastSpace))
  {
    assert Sealed(0);
    ReachedNext(Scan(text, column, 0), width, s);
    ScanStep(s.ptr, From(column, lines), s.pos, s.lastSpace);
    assert GetsOn(s.ptr, s.pos + 1, width) by { assert Opened(0); }
  }

  lemma UnderwayBreak(text: string, column: nat, width: nat, lines: seq<string>, s: Scan)
    requires Underway(text, column, width, lines, s) && Breaks(s, width)
    ensures var n := LineEnd(s);
            && LineEnds(s.ptr, From(column, lines), Limit(From(column, lines), width), n) && (s.ptr[n] == '\n' <==> s.ptr[s.pos] == '\n')
            && (n > 0 || s.ptr[n] == '\n' || s.ptr[0] == ' ')
  {
    assert Sealed(0);
    ScanBreak(s.ptr, From(column, lines), s.pos, s.lastSpace, Limit(From(column, lines), width));
    GetsOnLine(s, width);
  }

  lemma UnderwayLine(text: string, column: nat, width: nat, lines: seq<string>, s: Scan, line: string)
    requires Underway(text, column, width, lines, s) && Breaks(s, width)
    requires LineEnd(s) < |s.ptr| && line == s.ptr[..LineEnd(s)] + "\r\n"
    ensures Underway(text, column, width, lines + [line], Scan(AfterLine(s.ptr, LineEnd(s)), 0, 0))
  {
    var n, from := LineEnd(s), From(column, lines);
    UnderwayBreak(text, column, width, lines, s);
    assert Sealed(0);
    CutsOffHere(s.ptr, from, Limit(from, width), n, line);
    assert Wrapped(text, column, width, lines + [line], AfterLine(s.ptr, n)) by {
      assert Opened(0);
      WrapsMore(text, column, width, lines, s.ptr, line);
    }
    GetsOnLine(s, width);
    RoundLine(s, width, n);
    ReachedLine(Scan(text, column, 0), width, s, n, AfterLine(s.ptr, n));
    ScanStart(AfterLine(s.ptr, n), 0);
  }

  lemma UnderwayDone(text: string, column: nat, width: nat, lines: seq<string>, s: Scan)
    requires Underway(text, column, width, lines, s) && Done(s)
    ensures Wraps(text, column, width, lines, s.ptr)
    ensures exists k: nat :: Rounds(Scan(text, column, 0), width, k) == s
    ensures |s.ptr| <= Limit(From(column, lines), width) && NoneOf('\n', s.ptr, From(column, lines), |s.ptr|)
    ensures s.pos == if lines == [] && column > |s.ptr| then column else |s.ptr|
  {
    assert Sealed(0);
    assert Opened(0);
  }

  lemma FitsBuffer(text: string, column: nat, width: nat, lines: seq<string>, rest: string)
    requires Wraps(text, column, Columns(width), lines, rest) && (column <= LineWidth(width) || |text| <= column)
    ensures forall i :: 0 <= i < |lines| ==> |lines[i]| <= LineBuffer(width)
  {
    WrapsKeepsWidth(text, column, Columns(width), lines, rest);
    if lines != [] { assert column < |text| by { assert Opened(0); } }
  }

  class Terminal {
    var pos: nat              // the column, carried over from one call to the next
    var written: seq<string>  // the chunks given to out_raw

    constructor ()
      ensures pos == 0 && written == []
    {
      pos, written := 0, [];
    }

    method OutRaw(s: string)
      modifies `written
      ensures written == old(written) + [s]
    {
      written := written + [s];
    }

    /** out, on the text that its format and arguments give, cut to the buffer; `width` is the
        terminal's.  Returns the lines it ended; what is left fits a line and sets the column.  The
        two conditions are, by OutEnds and OutKeepsBuffer, those under which the loop ends and stays
        within its line buffer. */
    method Out(message: string, width: nat) returns (ghost lines: seq<string>, ghost last: string)
      requires pos < OUT_BUFFER
      requires LineWidth(width) >= 2 || |Buffered(message)| <= pos || OnlyBlanks(Buffered(message)[pos..])
      requires pos <= LineWidth(width) || |Buffered(message)| <= pos
      modifies this
      ensures pos < OUT_BUFFER
      ensures exists k: nat ::
                var s := Rounds(Scan(Buffered(message), old(pos), 0), Columns(width), k); Done(s) && s.ptr == last && s.pos == pos
      ensures written == old(written) + lines + [last]
      ensures Wraps(Buffered(message), old(pos), Columns(width), lines, last)
      ensures forall i :: 0 <= i < |lines| ==> |lines[i]| <= LineBuffer(width)
      ensures old(pos) <= width < UINT16_LIMIT - 1 ==> |last| <= width && forall i :: 0 <= i < |lines| ==> |lines[i]| <= width + 2
      ensures |last| <= Limit(From(old(pos), lines), Columns(width)) && NoneOf('\n', last, if lines == [] then old(pos) else 0, |last|)
      ensures pos == if lines == [] && old(pos) > |last| then old(pos) else |last|
    {
      var ptr, lastSpace: nat := Buffered(message), 0;
      var lineWidth: int := LineWidth(width);
      ghost var text, column, columns := ptr, pos, Columns(width);
      lines := [];
      UnderwayStart(text, column, columns);
      while pos < |ptr|
        invariant written == old(written) + lines && |ptr| < OUT_BUFFER
        invariant Underway(text, column, columns, lines, Scan(ptr, pos, lastSpace))
        decreases |ptr|, |ptr| - pos
      {
        ghost var s := Scan(ptr, pos, lastSpace);
        var isNewline := ptr[pos] == '\n';
        if isNewline || pos >= lineWidth - 1 {
          if isNewline || lastSpace == 0 {
            lastSpace := pos;
          }
          ptr, lines := NewLine(ptr, lastSpace, isNewline, text, column, columns, lines, s);
          lastSpace, pos := 0, 0;
        } else {
          UnderwayNext(text, column, columns, lines, s);
          if ptr[pos] == ' ' {
            lastSpace := pos;
          }
          pos := pos + 1;
        }
      }
      UnderwayDone(text, column, columns, lines, Scan(ptr, pos, lastSpace));
      FitsBuffer(text, column, width, lines, ptr);
      WrapsKeepsWidth(text, column, columns, lines, ptr);
      OutRaw(ptr);
      last := ptr;
    }

    /** The branch of out that ends a line. */
    method NewLine(ptr: string, n: nat, isNewline: bool, ghost text: string, ghost column: nat, ghost width: nat,
                   ghost lines: seq<string>, ghost s: Scan)
      returns (rest: string, ghost lines': seq<string>)
      requires Underway(text, column, width, lines, s) && Breaks(s, width) && s.ptr == ptr && n == LineEnd(s)
      requires isNewline == (ptr[s.pos] == '\n')
      modifies `written
      ensures exists line :: written == old(written) + [line] && lines' == lines + [line]
      ensures Underway(text, column, width, lines', Scan(rest, 0, 0)) && |rest| < |ptr|
    {
      var line;
      UnderwayBreak(text, column, width, lines, s);
      line, rest := Flush(ptr, n, isNewline);
      OutRaw(line);
      UnderwayLine(text, column, width, lines, s, line);
      lines' := lines + [line];
    }
  }

  lemma {:induction false} WrapsMore(text: string, column: nat, width: nat, lines: seq<string>, s: string, line: string)
    requires Wraps(text, column, width, lines, s) && CutsOff(s, From(column, lines), Limit(From(column, lines), width), line)
    ensures Wraps(text, column, width, lines + [line], AfterLine(s, Width(line)))
    decreases |lines|
  {
    var all := lines + [line];
    if lines == [] {
      assert all[1..] == [];
    } else {
      WrapsMore(AfterLine(text, Width(lines[0])), 0, width, lines[1..], s, line);
      assert all[1..] == lines[1..] + [line] && all[0] == lines[0];
    }
  }

  /** One output line of `n` characters, and what is left when the newline that ended it and the
      blanks that follow are skipped. */
  method Flush(ptr: string, n: nat, isNewline: bool) returns (line: string, rest: string)
    requires n < |ptr| && (isNewline <==> ptr[n] == '\n') && (n > 0 || isNewline || ptr[0] == ' ')
    ensures line == ptr[..n] + "\r\n" && rest == AfterLine(ptr, n) && |rest| < |ptr|
  {
    line, rest := "", ptr;
    var left := n;
    while rest != "" && left > 0
      invariant 0 <= left <= n && line == ptr[..n - left] && rest == ptr[n - left..]
    {
      line := line + [rest[0]];
      rest := rest[1..];
      left := left - 1;
    }
    line := line + "\r" + "\n";
    if isNewline {
      rest := rest[1..];
    }
    while rest != "" && rest[0] == ' '
      invariant |rest| < |ptr| || (rest == ptr && ptr[0] == ' ')
      invariant SkipBlanks(rest) == AfterLine(ptr, n)
      decreases |rest|
    {
      rest := rest[1..];
    }
  }

  // send_packet

  const MSG_MAX: nat := 4096

  /** The payloads of the packets that carry a broadcast. */
  function Payloads(packets: seq<string>): seq<string>
    requires forall i :: 0 <= i < |packets| ==> packets[i] != ""
  {
    seq(|packets|, i requires 0 <= i < |packets| => packets[i][1..])
  }

  lemma PayloadsMore(packets: seq<string>, p: string)
    requires p != "" && forall i :: 0 <= i < |packets| ==> packets[i] != ""
    ensures Payloads(packets + [p]) == Payloads(packets) + [p[1..]]
  {
  }

  lemma Taken(s: string, n: nat, m: nat)
    requires n + m <= |s|
    ensures s[..n] + s[n..n + m] == s[..n + m]
  {
  }

  /** Packets go out in one write each.  Only broadcasts are split, and no piece is split again;
      the out-parameter `ok` is the assertion at the top of send_packet. */
  method SendPacket(cmd: char, broadcast: bool, data: string) returns (ok: bool, packets: seq<string>)
    ensures ok == (|data| < MSG_MAX || broadcast) && (!ok ==> packets == [])
    ensures forall i :: 0 <= i < |packets| ==> 1 <= |packets[i]| <= MSG_MAX && packets[i][0] == cmd
    ensures ok ==> Concat(Payloads(packets)) == data
    ensures ok && |data| < MSG_MAX ==> packets == [[cmd] + data]
    ensures ok && |data| >= MSG_MAX ==> forall i :: 0 <= i < |packets| - 1 ==> |packets[i]| == MSG_MAX
    decreases |data|
  {
    ok, packets := |data| < MSG_MAX || broadcast, [];
    if !ok { return; }
    if broadcast && |data| + 1 > MSG_MAX {
      var done := 0;
      assert Payloads(packets) == [];
      while done < |data|
        invariant 0 <= done <= |data|
        invariant forall i :: 0 <= i < |packets| ==> 1 <= |packets[i]| <= MSG_MAX && packets[i][0] == cmd
        invariant Concat(Payloads(packets)) == data[..done]
        invariant done < |data| ==> forall i :: 0 <= i < |packets| ==> |packets[i]| == MSG_MAX
        invariant forall i :: 0 <= i < |packets| - 1 ==> |packets[i]| == MSG_MAX
      {
        var n := if |data| - done < MSG_MAX - 1 then |data| - done else MSG_MAX - 1;
        var fits, piece := SendPacket(cmd, broadcast, data[done..done + n]);
        PayloadsMore(packets, piece[0]);
        ConcatMore(Payloads(packets), data[done..done + n]);
        Taken(data, done, n);
        assert piece == [piece[0]] && piece[0][1..] == data[done..done + n];
        packets := packets + piece;
        done := done + n;
      }
      assert data[..done] == data;
    } else {
      packets := [[cmd] + data];
      assert Payloads(packets) == [data];
      ConcatMore([], data);
    }
  }

  // strlcat and format_noun

  /** As much of `s` as a buffer of `size` bytes holds, with its NUL. */
  function Fit(s: string, size: nat): (r: string)
    requires size > 0
    ensures r <= s && |r| < size && (r == s || |r| == size - 1)
  {
    if |s| < size then s else s[..size - 1]
  }

  lemma FitFit(a: string, b: string, size: nat)
    requires size > 0
    ensures Fit(Fit(a, size) + b, size) == Fit(a + b, size)
  {
  }

  lemma {:induction false} HeldIs(buf: string, s: string)
    requires |s| < |buf| && buf[..|s|] == s && buf[|s|] == B.NUL && B.NUL !in s
    ensures B.CString(buf) == s
  {
    if s != "" {
      assert buf[0] == buf[..|s|][0] == s[0];
      assert buf[1..][..|s[1..]|] == s[1..] by {
        assert buf[..|s|][1..] == buf[1..][..|s| - 1];
      }
      HeldIs(buf[1..], s[1..]);
      assert s == [s[0]] + s[1..];
    }
  }

  /** Two buffers that differ, if at all, from `lo` on and before `hi`. */
  ghost predicate Untouched(was: string, now: string, lo: nat, hi: nat) {
    |was| == |now| && forall i :: 0 <= i < |was| && (i < lo || hi <= i) ==> now[i] == was[i]
  }

  method Strlcat(dst: array<char>, src: string, siz: nat) returns (n: nat)
    requires siz <= dst.Length && B.NUL !in src
    modifies dst
    ensures var was := B.CString(old(dst[..siz]));
            && n == |was| + |src|
            && (|was| < siz ==> B.CString(dst[..siz]) == Fit(was + src, siz))
            && (|was| == siz ==> dst[..] == old(dst[..]))
            && (|was| < siz ==> Untouched(old(dst[..]), dst[..], |was|, |Fit(was + src, siz)| + 1))
    ensures dst[siz..] == old(dst[siz..])
  {
    ghost var was := B.CString(dst[..siz]);
    B.CStringIs(dst[..siz]);
    var d, left := 0, siz;
    while left != 0 && dst[d] != B.NUL
      invariant d + left == siz && d <= |was|
      invariant left == 0 ==> d == siz
    {
      assert was == dst[..siz][..|was|];
      d, left := d + 1, left - 1;
    }
    assert d == |was|;
    var dlen := d;
    n := dlen + |src|;
    if siz - dlen == 0 {
      return;
    }
    Append(dst, d, src, siz, was);
  }

  /** The copying loop of strlcat, which goes through all of `src` even when the buffer is full. */
  method Append(dst: array<char>, start: nat, src: string, siz: nat, ghost was: string)
    requires start < siz <= dst.Length && B.NUL !in src && B.NUL !in was
    requires |was| == start && dst[..start] == was
    modifies dst
    ensures B.CString(dst[..siz]) == Fit(was + src, siz) && dst[siz..] == old(dst[siz..])
    ensures Untouched(old(dst[..]), dst[..], start, |Fit(was + src, siz)| + 1)
  {
    var d, s, n := start, 0, siz - start;
    while s < |src|
      invariant 0 <= s <= |src| && 1 <= n && d + n == siz && start <= d
      invariant d - start == if s < siz - start then s else siz - start - 1
      invariant dst[..d] == was + src[..d - start]
      invariant dst[siz..] == old(dst[siz..]) && Untouched(old(dst[..]), dst[..], start, d)
    {
      if n != 1 {
        assert src[..d - start + 1] == src[..d - start] + [src[s]];
        dst[d] := src[s];
        d, n := d + 1, n - 1;
      }
      s := s + 1;
    }
    dst[d] := B.NUL;
    ghost var all := was + src;
    assert Fit(all, siz) == all[..d] && all[..d] == was + src[..d - start];
    assert dst[..siz][..d] == dst[..d] == all[..d];
    HeldIs(dst[..siz], all[..d]);
  }

  function Upper(c: char): char {
    if 'a' <= c <= 'z' then (c as int - 32) as char else c
  }

  function Lower(c: char): char {
    if 'A' <= c <= 'Z' then (c as int + 32) as char else c
  }

  predicate IsVowel(c: char) {
    Lower(c) in {'a', 'e', 'i', 'o', 'u'}
  }

  function Digits(n: nat): (s: string)
    ensures B.NUL !in s
  {
    (if n < 10 then "" else Digits(n / 10)) + [(n % 10 + 48) as char]
  }

  /** The number a string of digits stands for. */
  function Value(s: string): int {
    if s == "" then 0 else 10 * Value(s[..|s| - 1]) + (s[|s| - 1] as int - 48)
  }

  lemma ValueNext(s: string, c: char)
    ensures Value("") == 0 && Value(s + [c]) == 10 * Value(s) + (c as int - '0' as int)
  {
    assert (s + [c])[..|s|] == s;
  }

  lemma {:induction false} DigitsValue(n: nat)
    ensures Value(Digits(n)) == n && Digits(n) != "" && (n > 0 ==> Digits(n)[0] != '0')
    ensures forall c :: c in Digits(n) ==> '0' <= c <= '9'
  {
    if n >= 10 { DigitsValue(n / 10); }
    var front := if n < 10 then "" else Digits(n / 10);
    assert Digits(n) == front + [(n % 10 + 48) as char] && Digits(n)[..|front|] == front;
  }

  function Article(name: string, capitalize: bool): string {
    var vowel := name != "" && IsVowel(name[0]);
    if capitalize then (if vowel then "An" else "A") else (if vowel then "an" else "a")
  }

  lemma ArticleIs(name: string, capitalize: bool)
    ensures Article(name, capitalize)
         == (if capitalize then "A" else "a") + if name != "" && name[0] in "aeiouAEIOU" then "n" else ""
  {
    assert "A" + "n" == "An" && "a" + "n" == "an";
  }

  /** strlcat onto what the buffer holds of a longer text. */
  method Add(buf: array<char>, len: nat, src: string, ghost text: string)
    requires 0 < len <= buf.Length && B.NUL !in src && B.NUL !in text
    requires B.CString(buf[..len]) == Fit(text, len)
    modifies buf
    ensures B.CString(buf[..len]) == Fit(text + src, len) && buf[len..] == old(buf[len..])
  {
    var n := Strlcat(buf, src, len);
    FitFit(text, src, len);
  }

  /** format_noun: the buffer ends up with the phrase, cut only where the buffer is full.  `tmp` is
      a string of the name's first letter, which a nameless object does not have. */
  method FormatNoun(buf: array<char>, len: nat, name: string, count: nat, defaultArticle: bool, capitalize: bool)
    requires 1 < len <= buf.Length && B.NUL !in name
    requires count == 1 && !defaultArticle ==> name != ""
    modifies buf
    ensures count == 1 && defaultArticle ==>
              B.CString(buf[..len])
              == Fit((if capitalize then "A" else "a") + (if name != "" && name[0] in "aeiouAEIOU" then "n" else "") + " " + name, len)
    ensures count == 1 && !defaultArticle ==>
              B.CString(buf[..len])
              == Fit([if 'a' <= name[0] <= 'z' then (name[0] as int - 'a' as int + 'A' as int) as char else name[0]] + name[1..], len)
    ensures count != 1 ==>
              exists digits: string :: B.CString(buf[..len]) == Fit(digits + " " + name + "s", len) && Value(digits) == count
                                       && digits != "" && (forall c :: c in digits ==> '0' <= c <= '9') && (count > 0 ==> digits[0] != '0')
    ensures buf[len..] == old(buf[len..])
  {
    buf[0] := B.NUL;
    HeldIs(buf[..len], "");
    if count == 1 {
      if defaultArticle {
        AddArticled(buf, len, name, capitalize);
      } else {
        var tmp := [Upper(name[0])];
        assert name[0] in name && "" + tmp == tmp;
        Add(buf, len, tmp, "");
        Add(buf, len, name[1..], tmp);
      }
    } else {
      ghost var digits := AddCounted(buf, len, name, count);
    }
  }

  method AddArticled(buf: array<char>, len: nat, name: string, capitalize: bool)
    requires 1 < len <= buf.Length && B.NUL !in name && B.CString(buf[..len]) == ""
    modifies buf
    ensures B.CString(buf[..len])
         == Fit((if capitalize then "A" else "a") + (if name != "" && name[0] in "aeiouAEIOU" then "n" else "") + " " + name, len)
    ensures buf[len..] == old(buf[len..])
  {
    var article := Article(name, capitalize);
    assert "" + article == article;
    Add(buf, len, article, "");
    Add(buf, len, " ", article);
    Add(buf, len, name, article + " ");
    ArticleIs(name, capitalize);
  }

  method AddCounted(buf: array<char>, len: nat, name: string, count: nat) returns (ghost digits: string)
    requires 1 < len <= buf.Length && B.NUL !in name && B.CString(buf[..len]) == ""
    modifies buf
    ensures B.CString(buf[..len]) == Fit(digits + " " + name + "s", len) && Value(digits) == count
    ensures digits != "" && (forall c :: c in digits ==> '0' <= c <= '9') && (count > 0 ==> digits[0] != '0')
    ensures buf[len..] == old(buf[len..])
  {
    var n := Digits(count);
    assert "" + n == n;
    Add(buf, len, n, "");
    Add(buf, len, " ", n);
    Add(buf, len, name, n + " ");
    Add(buf, len, "s", n + " " + name);
    DigitsValue(count);
    digits := n;
  }
}
