/** The line scanner of `ktail_read` (src/ktail.c), as a function over the bytes of the file.
    It follows the C loop exactly: every byte the outer `fgetc` loop fetches is counted, a line
    that has reached `MAX_LINE - 1` bytes makes the next fetched byte start a skip loop that
    reads up to the next newline without counting, and that skip loop never stops at EOF. */
module LineScan {
  import opened Types

  /** What one pass of the scanner over the readable bytes produces: the completed lines in
      order, the unterminated fragment left at EOF, and how many bytes `ctx->bytes` grew by.
      `Diverges` is the pass whose skip loop reaches EOF and spins there forever. */
  datatype Pass = Diverges | Scanned(lines: seq<seq<byte>>, partial: seq<byte>, counted: nat)

  /** Bytes left in `input` from position `i` on. */
  function Rest(input: seq<byte>, i: nat): nat {
    if i < |input| then |input| - i else 0
  }

  /** Position of the first newline at or after `i`. */
  function NextNewline(input: seq<byte>, i: nat): (r: Option<nat>)
    decreases |input| - i
    ensures r.None? ==> forall k :: i <= k < |input| ==> input[k] != NL
    ensures r.Some? ==> i <= r.value < |input| && input[r.value] == NL
    ensures r.Some? ==> forall k :: i <= k < r.value ==> input[k] != NL
  {
    if i >= |input| then None
    else if input[i] == NL then Some(i)
    else NextNewline(input, i + 1)
  }

  /** The first newline at or after `a` is at `j` when `input[a..j]` holds none. */
  lemma {:induction false} NextNewlineAt(input: seq<byte>, a: nat, j: nat)
    requires a <= j < |input| && input[j] == NL
    requires forall k :: a <= k < j ==> input[k] != NL
    decreases j - a
    ensures NextNewline(input, a) == Some(j)
  {
    if a < j {
      NextNewlineAt(input, a + 1, j);
    }
  }

  /** There is no newline at or after `a` when `input[a..]` holds none. */
  lemma {:induction false} NextNewlineNone(input: seq<byte>, a: nat)
    requires forall k :: a <= k < |input| ==> input[k] != NL
    decreases |input| - a
    ensures NextNewline(input, a) == None
  {
    if a < |input| {
      NextNewlineNone(input, a + 1);
    }
  }

  /** The scanner resumed at position `i` with the lines completed so far, the bytes of the
      current line (`off == |partial|`) and the bytes counted so far. */
  function ScanFrom(input: seq<byte>, maxLine: nat, i: nat,
                    lines: seq<seq<byte>>, partial: seq<byte>, counted: nat): (r: Pass)
    requires maxLine >= 2 && |partial| < maxLine
    decreases |input| - i
  {
    if i >= |input| then Scanned(lines, partial, counted)
    else if |partial| == maxLine - 1 then
      match NextNewline(input, i + 1)
      case None => Diverges
      case Some(j) => ScanFrom(input, maxLine, j + 1, lines + [partial], [], counted + 1)
    else if input[i] == NL then
      ScanFrom(input, maxLine, i + 1, lines + [partial], [], counted + 1)
    else
      ScanFrom(input, maxLine, i + 1, lines, partial + [input[i]], counted + 1)
  }

  /** A scan that ends only adds lines, each of which fits a slot, leaves a fragment that fits
      a slot too, and counts at most one byte per byte it reads. */
  lemma {:induction false} ScanFromBounds(input: seq<byte>, maxLine: nat, i: nat,
                                          lines: seq<seq<byte>>, partial: seq<byte>, counted: nat)
    requires maxLine >= 2 && |partial| < maxLine
    decreases |input| - i
    ensures var r := ScanFrom(input, maxLine, i, lines, partial, counted);
      r.Scanned? ==>
        && (Fits(lines, maxLine) ==> Fits(r.lines, maxLine))
        && |r.partial| < maxLine
        && lines <= r.lines
        && counted <= r.counted <= counted + Rest(input, i)
  {
    if i < |input| {
      if |partial| == maxLine - 1 {
        match NextNewline(input, i + 1)
        case None =>
        case Some(j) =>
          ScanFromBounds(input, maxLine, j + 1, lines + [partial], [], counted + 1);
      } else if input[i] == NL {
        ScanFromBounds(input, maxLine, i + 1, lines + [partial], [], counted + 1);
      } else {
        ScanFromBounds(input, maxLine, i + 1, lines, partial + [input[i]], counted + 1);
      }
    }
  }

  /** A newline read into a line that still has room completes the line. */
  lemma ScanNewline(input: seq<byte>, maxLine: nat, i: nat,
                    lines: seq<seq<byte>>, partial: seq<byte>, counted: nat)
    requires maxLine >= 2 && |partial| < maxLine - 1 && i < |input| && input[i] == NL
    ensures ScanFrom(input, maxLine, i, lines, partial, counted)
         == ScanFrom(input, maxLine, i + 1, lines + [partial], [], counted + 1)
  {
  }

  /** Another byte read into a line that still has room extends the line. */
  lemma ScanByte(input: seq<byte>, maxLine: nat, i: nat,
                 lines: seq<seq<byte>>, partial: seq<byte>, counted: nat)
    requires maxLine >= 2 && |partial| < maxLine - 1 && i < |input| && input[i] != NL
    ensures ScanFrom(input, maxLine, i, lines, partial, counted)
         == ScanFrom(input, maxLine, i + 1, lines, partial + [input[i]], counted + 1)
  {
  }

  /** A byte read into a full line is dropped with everything up to the next newline at `j`,
      and the full line is completed. */
  lemma ScanSkip(input: seq<byte>, maxLine: nat, i: nat, j: nat,
                 lines: seq<seq<byte>>, partial: seq<byte>, counted: nat)
    requires maxLine >= 2 && |partial| == maxLine - 1 && i < |input|
    requires NextNewline(input, i + 1) == Some(j)
    ensures ScanFrom(input, maxLine, i, lines, partial, counted)
         == ScanFrom(input, maxLine, j + 1, lines + [partial], [], counted + 1)
  {
  }

  /** A byte read into a full line with no newline after it makes the scan diverge. */
  lemma ScanSkipDiverges(input: seq<byte>, maxLine: nat, i: nat,
                         lines: seq<seq<byte>>, partial: seq<byte>, counted: nat)
    requires maxLine >= 2 && |partial| == maxLine - 1 && i < |input|
    requires NextNewline(input, i + 1).None?
    ensures ScanFrom(input, maxLine, i, lines, partial, counted) == Diverges
  {
  }

  /** One full pass from the start of the input. */
  function Scan(input: seq<byte>, maxLine: nat): (r: Pass)
    requires maxLine >= 2
    ensures r.Scanned? ==> Fits(r.lines, maxLine) && |r.partial| < maxLine
    ensures r.Scanned? ==> r.counted <= |input|
  {
    ScanFromBounds(input, maxLine, 0, [], [], 0);
    ScanFrom(input, maxLine, 0, [], [], 0)
  }

  /** Length of the newline-free run that ends just before position `k`. */
  function RunLength(input: seq<byte>, k: nat): nat
    requires k <= |input|
  {
    if k == 0 || input[k - 1] == NL then 0 else 1 + RunLength(input, k - 1)
  }

  /** No line of the input (the trailing fragment included) reaches `maxLine - 1` bytes. */
  ghost predicate NoLongLine(input: seq<byte>, maxLine: nat) {
    forall k :: 0 <= k <= |input| ==> RunLength(input, k) < maxLine - 1
  }

  /** A newline read after `input[..i]` was split into `lines` and `partial` completes `partial`. */
  lemma ShortNewline(input: seq<byte>, i: nat, lines: seq<seq<byte>>, partial: seq<byte>)
    requires i < |input| && input[i] == NL
    requires Joined(lines) + partial == input[..i] && NoNewlines(lines) && NL !in partial
    ensures Joined(lines + [partial]) + [] == input[..i + 1] && NoNewlines(lines + [partial])
    ensures RunLength(input, i + 1) == 0
  {
    assert input[..i + 1] == input[..i] + [input[i]];
    JoinedAppend(lines, partial);
  }

  /** Any other byte read after `input[..i]` was split into `lines` and `partial` extends
      `partial`. */
  lemma ShortByte(input: seq<byte>, i: nat, lines: seq<seq<byte>>, partial: seq<byte>)
    requires i < |input| && input[i] != NL && |partial| == RunLength(input, i)
    requires Joined(lines) + partial == input[..i] && NL !in partial
    ensures Joined(lines) + (partial + [input[i]]) == input[..i + 1] && NL !in partial + [input[i]]
    ensures RunLength(input, i + 1) == |partial| + 1
  {
    assert input[..i + 1] == input[..i] + [input[i]];
  }

  lemma {:induction false} ScanShortFrom(input: seq<byte>, maxLine: nat, i: nat,
                                         lines: seq<seq<byte>>, partial: seq<byte>, counted: nat)
    requires maxLine >= 2 && i <= |input| && NoLongLine(input, maxLine)
    requires Joined(lines) + partial == input[..i] && NoNewlines(lines) && NL !in partial
    requires |partial| == RunLength(input, i)
    decreases |input| - i
    ensures var r := ScanFrom(input, maxLine, i, lines, partial, counted);
      && r.Scanned?
      && r.counted == counted + |input| - i
      && Joined(r.lines) + r.partial == input
      && NoNewlines(r.lines) && NL !in r.partial
  {
    assert RunLength(input, i) < maxLine - 1;
    if i == |input| {
      assert input[..i] == input;
    } else if input[i] == NL {
      ShortNewline(input, i, lines, partial);
      ScanNewline(input, maxLine, i, lines, partial, counted);
      ScanShortFrom(input, maxLine, i + 1, lines + [partial], [], counted + 1);
    } else {
      ShortByte(input, i, lines, partial);
      ScanByte(input, maxLine, i, lines, partial, counted);
      ScanShortFrom(input, maxLine, i + 1, lines, partial + [input[i]], counted + 1);
    }
  }

  /** When no line reaches `MAX_LINE - 1` bytes, the scan splits the input exactly at its
      newlines: the completed lines and the fragment put back together give the input, the
      line counter grows by the number of newlines and the byte counter by the input length. */
  lemma ScanOfShortLines(input: seq<byte>, maxLine: nat)
    requires maxLine >= 2 && NoLongLine(input, maxLine)
    ensures var r := Scan(input, maxLine);
      && r.Scanned?
      && r.counted == |input|
      && |r.lines| == Newlines(input)
      && Joined(r.lines) + r.partial == input
      && NoNewlines(r.lines) && NL !in r.partial
  {
    assert input[..0] == [];
    ScanShortFrom(input, maxLine, 0, [], [], 0);
    var r := Scan(input, maxLine);
    JoinedNewlines(r.lines, r.partial);
  }

  /** Scanning newline-free bytes that still fit only extends the current line. */
  lemma {:induction false} ScanPlainRun(input: seq<byte>, maxLine: nat, i: nat, j: nat,
                                        lines: seq<seq<byte>>, partial: seq<byte>, counted: nat)
    requires maxLine >= 2 && i <= j <= |input|
    requires forall k :: i <= k < j ==> input[k] != NL
    requires |partial| + (j - i) <= maxLine - 1
    decreases j - i
    ensures ScanFrom(input, maxLine, i, lines, partial, counted)
         == ScanFrom(input, maxLine, j, lines, partial + input[i..j], counted + (j - i))
  {
    if i == j {
      assert partial + input[i..j] == partial;
    } else {
      assert partial + [input[i]] + input[i + 1..j] == partial + input[i..j];
      ScanPlainRun(input, maxLine, i + 1, j, lines, partial + [input[i]], counted + 1);
    }
  }

  /** An overlong line is stored cut to its first `MAX_LINE - 1` bytes, and only
      `MAX_LINE` bytes are counted for it although the whole line and its newline were read. */
  lemma ScanTruncatesLongLine(line: seq<byte>, maxLine: nat)
    requires maxLine >= 2 && NL !in line && |line| >= maxLine
    ensures Scan(line + [NL], maxLine) == Scanned([line[..maxLine - 1]], [], maxLine)
  {
    var input := line + [NL];
    var m := maxLine - 1;
    forall k | 0 <= k < m ensures input[k] != NL {
      assert input[k] == line[k];
    }
    ScanPlainRun(input, maxLine, 0, m, [], [], 0);
    assert [] + input[0..m] == line[..m];
    forall k | m + 1 <= k < |line| ensures input[k] != NL {
      assert input[k] == line[k];
    }
    assert input[|line|] == NL;
    assert NextNewline(input, m + 1) == Some(|line|);
  }

  /** A line of exactly `MAX_LINE - 1` bytes followed by its newline still enters the skip
      loop, which swallows the whole following line. */
  lemma ScanSwallowsNextLine(line: seq<byte>, next: seq<byte>, maxLine: nat)
    requires maxLine >= 2 && NL !in line && NL !in next && |line| == maxLine - 1
    ensures Scan(line + [NL] + next + [NL], maxLine) == Scanned([line], [], maxLine)
  {
    var input := line + [NL] + next + [NL];
    var m := maxLine - 1;
    forall k | 0 <= k < m ensures input[k] != NL {
      assert input[k] == line[k];
    }
    ScanPlainRun(input, maxLine, 0, m, [], [], 0);
    assert [] + input[0..m] == line;
    forall k | m + 1 <= k < m + 1 + |next| ensures input[k] != NL {
      assert input[k] == next[k - m - 1];
    }
    assert input[m + 1 + |next|] == NL;
    assert NextNewline(input, m + 1) == Some(m + 1 + |next|);
  }

  /** The skip loop does not stop at EOF: a line that reaches `MAX_LINE - 1` bytes and is
      followed by one more byte, even its own newline, and then no newline makes the scan
      diverge. */
  lemma ScanHangsAtEof(line: seq<byte>, tail: seq<byte>, maxLine: nat)
    requires maxLine >= 2 && NL !in line && |line| == maxLine - 1 && tail != [] && NL !in tail[1..]
    ensures Scan(line + tail, maxLine) == Diverges
  {
    var input := line + tail;
    var m := maxLine - 1;
    forall k | 0 <= k < m ensures input[k] != NL {
      assert input[k] == line[k];
    }
    ScanPlainRun(input, maxLine, 0, m, [], [], 0);
    assert [] + input[0..m] == line;
    forall k | m + 1 <= k < |input| ensures input[k] != NL {
      assert input[k] == tail[k - m] == tail[1..][k - m - 1];
    }
    assert NextNewline(input, m + 1) == None;
  }
}
