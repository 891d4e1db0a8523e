/** The ring of the last `n` lines kept by `ktail_read` and shown by `ktail_print`
    (src/ktail.c), on values: `slots` is `ctx->data`, one `maxLine`-byte buffer per slot, and a
    line numbered `lc` (counting from 0) lives in slot `lc % n`. */
module LineRing {
  import opened Types

  /** The slot of line number `lc` in a ring of `n` slots, `lc % n`, counted out by whole turns
      of the ring (`SlotOfMod` shows the two agree). */
  function SlotOf(lc: nat, n: nat): (s: nat)
    requires n > 0
    ensures s < n
    decreases lc
  {
    if lc < n then lc else SlotOf(lc - n, n)
  }

  /** Every slot is a `maxLine`-byte buffer. */
  ghost predicate Shaped(slots: seq<seq<byte>>, maxLine: nat) {
    forall s :: 0 <= s < |slots| ==> |slots[s]| == maxLine
  }

  /** The slot after `text` has been written over its start byte by byte, not yet terminated. */
  function WriteChars(slot: seq<byte>, text: seq<byte>): (r: seq<byte>)
    requires |text| <= |slot|
    ensures |r| == |slot|
  {
    text + slot[|text|..]
  }

  /** The slot after `text` and its NUL have been written: it now holds `text` as a C string. */
  function Terminate(slot: seq<byte>, text: seq<byte>): (r: seq<byte>)
    requires |text| < |slot|
    ensures |r| == |slot|
    ensures CStr(r) == CStr(text)
  {
    CStrTerminated(text, slot[|text| + 1..]);
    assert WriteChars(slot, text + [NUL]) == text + [NUL] + slot[|text| + 1..];
    WriteChars(slot, text + [NUL])
  }

  /** Storing a completed line as line number `lc`. */
  function Store(slots: seq<seq<byte>>, maxLine: nat, lc: nat, line: seq<byte>): (r: seq<seq<byte>>)
    requires |slots| > 0 && Shaped(slots, maxLine) && |line| < maxLine
    ensures |r| == |slots| && Shaped(r, maxLine)
  {
    var s := SlotOf(lc, |slots|);
    slots[s := Terminate(slots[s], line)]
  }

  /** Storing line `lc` leaves `line`, then NUL, at the start of slot `lc % n`, so that the slot
      holds `line` as a C string, and leaves every other slot as it was. */
  lemma StoreSlots(slots: seq<seq<byte>>, maxLine: nat, lc: nat, line: seq<byte>)
    requires |slots| > 0 && Shaped(slots, maxLine) && |line| < maxLine
    ensures var r, s := Store(slots, maxLine, lc, line), SlotOf(lc, |slots|);
      && r[s][..|line|] == line && r[s][|line|] == NUL
      && CStr(r[s]) == CStr(line)
      && forall t :: 0 <= t < |r| && t != s ==> r[t] == slots[t]
  {
    var s := SlotOf(lc, |slots|);
    assert Store(slots, maxLine, lc, line)[s] == line + [NUL] + slots[s][|line| + 1..];
  }

  /** The slots after `lines` have been stored as lines `lc`, `lc + 1`, ... */
  function StoreAll(slots: seq<seq<byte>>, maxLine: nat, lc: nat, lines: seq<seq<byte>>): (r: seq<seq<byte>>)
    requires |slots| > 0 && Shaped(slots, maxLine) && Fits(lines, maxLine)
    ensures |r| == |slots| && Shaped(r, maxLine)
    decreases |lines|
  {
    if lines == [] then slots
    else
      var k := |lines| - 1;
      Store(StoreAll(slots, maxLine, lc, lines[..k]), maxLine, lc + k, lines[k])
  }

  /** The slots while line `lc` is in progress with `partial` bytes so far. */
  function Pending(slots: seq<seq<byte>>, maxLine: nat, lc: nat, partial: seq<byte>): (r: seq<seq<byte>>)
    requires |slots| > 0 && Shaped(slots, maxLine) && |partial| < maxLine
    ensures |r| == |slots| && Shaped(r, maxLine)
  {
    var s := SlotOf(lc, |slots|);
    slots[s := WriteChars(slots[s], partial)]
  }

  /** The slots at the end of a clean scan: a non-empty trailing fragment is NUL-terminated in
      slot `lc % n` without becoming a line; an empty one touches nothing. */
  function Finish(slots: seq<seq<byte>>, maxLine: nat, lc: nat, partial: seq<byte>): (r: seq<seq<byte>>)
    requires |slots| > 0 && Shaped(slots, maxLine) && |partial| < maxLine
    ensures |r| == |slots| && Shaped(r, maxLine)
  {
    if partial == [] then slots else Store(slots, maxLine, lc, partial)
  }

  /** A line in progress with no bytes yet leaves the slots as they are. */
  lemma PendingEmpty(slots: seq<seq<byte>>, maxLine: nat, lc: nat)
    requires |slots| > 0 && Shaped(slots, maxLine) && maxLine > 0
    ensures Pending(slots, maxLine, lc, []) == slots
  {
    var s := SlotOf(lc, |slots|);
    assert WriteChars(slots[s], []) == slots[s];
  }

  /** Writing byte `c` at offset `off == |partial|` of slot `lc % n` extends the line in
      progress by `c`. */
  lemma PendingPush(slots: seq<seq<byte>>, maxLine: nat, lc: nat, partial: seq<byte>, c: byte)
    requires |slots| > 0 && Shaped(slots, maxLine) && |partial| + 1 < maxLine
    ensures var p, s := Pending(slots, maxLine, lc, partial), SlotOf(lc, |slots|);
      p[s := p[s][|partial| := c]] == Pending(slots, maxLine, lc, partial + [c])
  {
    var s := SlotOf(lc, |slots|);
    assert WriteChars(slots[s], partial)[|partial| := c] == WriteChars(slots[s], partial + [c]);
  }

  /** Writing NUL at offset `off == |partial|` of slot `lc % n` stores the line in progress. */
  lemma PendingStore(slots: seq<seq<byte>>, maxLine: nat, lc: nat, partial: seq<byte>)
    requires |slots| > 0 && Shaped(slots, maxLine) && |partial| < maxLine
    ensures var p, s := Pending(slots, maxLine, lc, partial), SlotOf(lc, |slots|);
      p[s := p[s][|partial| := NUL]] == Store(slots, maxLine, lc, partial)
  {
    var s := SlotOf(lc, |slots|);
    assert WriteChars(slots[s], partial)[|partial| := NUL] == WriteChars(slots[s], partial + [NUL]);
  }

  /** Storing one more line extends `StoreAll` by that line. */
  lemma StoreAllAppend(slots: seq<seq<byte>>, maxLine: nat, lc: nat, lines: seq<seq<byte>>, line: seq<byte>)
    requires |slots| > 0 && Shaped(slots, maxLine) && Fits(lines, maxLine) && |line| < maxLine
    ensures Fits(lines + [line], maxLine)
    ensures StoreAll(slots, maxLine, lc, lines + [line])
         == Store(StoreAll(slots, maxLine, lc, lines), maxLine, lc + |lines|, line)
  {
    assert (lines + [line])[..|lines|] == lines;
  }

  /** Terminating the line in progress stores it as the next line, after which a new line
      starts with no bytes. */
  lemma CompleteLine(slots: seq<seq<byte>>, maxLine: nat, lc: nat, lines: seq<seq<byte>>, line: seq<byte>)
    requires |slots| > 0 && Shaped(slots, maxLine) && Fits(lines, maxLine) && |line| < maxLine
    ensures Fits(lines + [line], maxLine)
    ensures Store(StoreAll(slots, maxLine, lc, lines), maxLine, lc + |lines|, line)
         == Pending(StoreAll(slots, maxLine, lc, lines + [line]), maxLine, lc + |lines| + 1, [])
  {
    StoreAllAppend(slots, maxLine, lc, lines, line);
    PendingEmpty(StoreAll(slots, maxLine, lc, lines + [line]), maxLine, lc + |lines| + 1);
  }

  /** The slots `ktail_print` visits, in order, when `lc` lines have been completed: those of
      the last `min(lc, n)` line numbers, oldest first. */
  function WindowSlots(lc: nat, n: nat): (w: seq<nat>)
    requires n > 0
    ensures |w| == if lc < n then lc else n
    ensures forall k :: 0 <= k < |w| ==> w[k] < n && w[k] == SlotOf(lc - |w| + k, n)
  {
    var count := if lc >= n then n else lc;
    var start := if lc >= n then lc else 0;
    var w := seq<nat>(count, k requires 0 <= k < count => SlotOf(start + k, n));
    assert forall k :: 0 <= k < count ==> w[k] == SlotOf(start + k, n);
    w
  }

  /** The C strings held by the slots `w` names, in order. */
  function Shown(slots: seq<seq<byte>>, w: seq<nat>): (lines: seq<seq<byte>>)
    requires forall k :: 0 <= k < |w| ==> w[k] < |slots|
    ensures |lines| == |w|
  {
    seq(|w|, k requires 0 <= k < |w| => CStr(slots[w[k]]))
  }

  /** What `ktail_print` writes for the slots `w` names, in order: each as a C string followed
      by a newline. */
  function PrintedSlots(slots: seq<seq<byte>>, w: seq<nat>): seq<byte>
    requires forall k :: 0 <= k < |w| ==> w[k] < |slots|
  {
    if w == [] then [] else PrintedSlots(slots, w[..|w| - 1]) + CStr(slots[w[|w| - 1]]) + [NL]
  }

  /** Visiting one more slot of `w` writes that slot after what came before. */
  lemma PrintedSlotsSnoc(slots: seq<seq<byte>>, w: seq<nat>, j: nat)
    requires forall k :: 0 <= k < |w| ==> w[k] < |slots|
    requires j < |w|
    ensures PrintedSlots(slots, w[..j + 1]) == PrintedSlots(slots, w[..j]) + CStr(slots[w[j]]) + [NL]
  {
    assert w[..j + 1][..j] == w[..j];
  }

  /** That output is the shown lines joined by newlines. */
  lemma {:induction false} PrintedSlotsJoined(slots: seq<seq<byte>>, w: seq<nat>)
    requires forall k :: 0 <= k < |w| ==> w[k] < |slots|
    ensures PrintedSlots(slots, w) == Joined(Shown(slots, w))
  {
    if w != [] {
      var v := w[..|w| - 1];
      PrintedSlotsJoined(slots, v);
      assert Shown(slots, w)[..|w| - 1] == Shown(slots, v);
    }
  }

  /** What `ktail_print` writes to standard output: every shown slot followed by a newline. */
  function Printed(slots: seq<seq<byte>>, lc: nat): seq<byte>
    requires |slots| > 0
  {
    PrintedSlots(slots, WindowSlots(lc, |slots|))
  }

  /** Lines as `printf("%s")` shows them. */
  function CStrs(lines: seq<seq<byte>>): (r: seq<seq<byte>>)
    ensures |r| == |lines|
  {
    seq(|lines|, k requires 0 <= k < |lines| => CStr(lines[k]))
  }

  lemma CStrsOfPlainLines(lines: seq<seq<byte>>)
    requires forall k :: 0 <= k < |lines| ==> NUL !in lines[k]
    ensures CStrs(lines) == lines
  {
    forall k | 0 <= k < |lines| ensures CStrs(lines)[k] == lines[k] {
      CStrOfPlainText(lines[k]);
    }
  }

  lemma MulStep(x: int, n: int)
    ensures x * n == (x - 1) * n + n
  {
  }

  lemma {:induction false} MulAtLeast(x: nat, n: int)
    requires x >= 1 && n > 0
    ensures x * n >= n
    decreases x
  {
    if x > 1 {
      MulAtLeast(x - 1, n);
      MulStep(x, n);
    }
  }

  /** Division by a positive divisor is unique: the quotient and remainder are determined. */
  lemma DivModUnique(a: int, n: int, q: int, r: int)
    requires n > 0 && 0 <= r < n && a == q * n + r
    ensures a % n == r && a / n == q
  {
    var q', r' := a / n, a % n;
    assert a == q' * n + r';
    if q > q' {
      MulAtLeast(q - q', n);
    } else if q < q' {
      MulAtLeast(q' - q, n);
    }
  }

  lemma ModShift(a: nat, n: nat)
    requires n > 0
    ensures (a + n) % n == a % n
  {
    var q, r := a / n, a % n;
    assert a + n == (q + 1) * n + r;
    DivModUnique(a + n, n, q + 1, r);
  }

  lemma ModDistinct(a: nat, d: nat, n: nat)
    requires 0 < d < n
    ensures (a + d) % n != a % n
  {
    var q, r := a / n, a % n;
    if r + d < n {
      assert a + d == q * n + (r + d);
      DivModUnique(a + d, n, q, r + d);
    } else {
      assert a + d == (q + 1) * n + (r + d - n);
      DivModUnique(a + d, n, q + 1, r + d - n);
    }
  }

  /** Counting out whole turns of the ring gives the remainder `lc % n`. */
  lemma {:induction false} SlotOfMod(lc: nat, n: nat)
    requires n > 0
    ensures SlotOf(lc, n) == lc % n
    decreases lc
  {
    if lc < n {
      DivModUnique(lc, n, 0, lc);
    } else {
      SlotOfMod(lc - n, n);
      ModShift(lc - n, n);
    }
  }

  /** Line numbers less than a full turn apart live in different slots. */
  lemma SlotsDiffer(a: nat, d: nat, n: nat)
    requires 0 < d < n
    ensures SlotOf(a + d, n) != SlotOf(a, n)
  {
    SlotOfMod(a + d, n);
    SlotOfMod(a, n);
    ModDistinct(a, d, n);
  }

  /** Walking line numbers `i` from the window's start and taking slot `i % n`, as
      `ktail_print` does, visits the window in order. */
  lemma WindowSlotMod(lc: nat, n: nat, i: nat)
    requires n > 0
    requires var start := if lc >= n then lc else 0; start <= i < start + |WindowSlots(lc, n)|
    ensures WindowSlots(lc, n)[i - (if lc >= n then lc else 0)] == i % n
  {
    SlotOfMod(i, n);
  }

  /** The window names the slot of each of the last `min(lc, n)` line numbers, oldest first,
      starting at slot 0 before the ring has wrapped and at slot `lc % n` after; no slot twice. */
  lemma WindowSlotsOrder(lc: nat, n: nat)
    requires n > 0
    ensures var w := WindowSlots(lc, n);
      && (lc < n ==> forall k :: 0 <= k < |w| ==> w[k] == k)
      && (lc >= n ==> w[0] == lc % n)
      && (forall k :: 0 <= k < |w| ==> w[k] == (lc - |w| + k) % n)
      && (forall j, k :: 0 <= j < k < |w| ==> w[j] != w[k])
  {
    var w := WindowSlots(lc, n);
    forall k | 0 <= k < |w| ensures w[k] == (lc - |w| + k) % n {
      SlotOfMod(lc - |w| + k, n);
    }
    if lc >= n {
      SlotOfMod(lc, n);
      forall j, k | 0 <= j < k < |w| ensures w[j] != w[k] {
        SlotsDiffer(lc - n + j, k - j, n);
      }
    }
  }

  /** Among the last `n` lines stored, each is found, as a C string, in its slot. */
  lemma {:induction false} SlotHoldsLine(slots: seq<seq<byte>>, maxLine: nat, lc: nat,
                                         lines: seq<seq<byte>>, k: nat)
    requires |slots| > 0 && Shaped(slots, maxLine) && Fits(lines, maxLine)
    requires k < |lines| && |lines| - k <= |slots|
    decreases |lines|
    ensures CStr(StoreAll(slots, maxLine, lc, lines)[SlotOf(lc + k, |slots|)]) == CStr(lines[k])
  {
    var n, last := |slots|, |lines| - 1;
    assert Fits(lines[..last], maxLine);
    var prev := StoreAll(slots, maxLine, lc, lines[..last]);
    var slot := SlotOf(lc + k, n);
    assert StoreAll(slots, maxLine, lc, lines) == Store(prev, maxLine, lc + last, lines[last]);
    if k < last {
      SlotsDiffer(lc + k, last - k, n);
      assert slot != SlotOf(lc + last, n);
      assert Store(prev, maxLine, lc + last, lines[last])[slot] == prev[slot];
      assert lines[..last][k] == lines[k];
      SlotHoldsLine(slots, maxLine, lc, lines[..last], k);
    }
  }

  /** The `k`-th slot of the window holds line `L - m + k`, where `m = min(L, n)`. */
  lemma WindowEntry(slots: seq<seq<byte>>, maxLine: nat, lines: seq<seq<byte>>, k: nat)
    requires |slots| > 0 && Shaped(slots, maxLine) && Fits(lines, maxLine)
    requires k < |WindowSlots(|lines|, |slots|)|
    ensures var w := WindowSlots(|lines|, |slots|);
      CStr(StoreAll(slots, maxLine, 0, lines)[w[k]]) == CStr(lines[|lines| - |w| + k])
  {
    var n, L := |slots|, |lines|;
    var w := WindowSlots(L, n);
    var j := L - |w| + k;
    SlotHoldsLine(slots, maxLine, 0, lines, j);
  }

  /** After `L` lines have been stored into a fresh ring of `n` slots, whatever the slots held
      before, the window shows the last `min(L, n)` lines, oldest first. */
  lemma WindowShowsLastLines(slots: seq<seq<byte>>, maxLine: nat, lines: seq<seq<byte>>)
    requires |slots| > 0 && Shaped(slots, maxLine) && Fits(lines, maxLine)
    ensures var n := |slots|;
      var m := if |lines| < n then |lines| else n;
      Shown(StoreAll(slots, maxLine, 0, lines), WindowSlots(|lines|, n)) == CStrs(lines[|lines| - m..])
  {
    var n, L := |slots|, |lines|;
    var m := if L < n then L else n;
    var w := WindowSlots(L, n);
    var shown, expected := Shown(StoreAll(slots, maxLine, 0, lines), w), CStrs(lines[L - m..]);
    forall k | 0 <= k < m
      ensures shown[k] == expected[k]
    {
      WindowEntry(slots, maxLine, lines, k);
      assert expected[k] == CStr(lines[L - m + k]);
    }
  }

  /** ... so that `ktail_print` writes exactly those lines, each followed by a newline, when
      none of them holds a NUL. */
  lemma PrintedLastLines(slots: seq<seq<byte>>, maxLine: nat, lines: seq<seq<byte>>)
    requires |slots| > 0 && Shaped(slots, maxLine) && Fits(lines, maxLine)
    requires forall k :: 0 <= k < |lines| ==> NUL !in lines[k]
    ensures var L, n := |lines|, |slots|;
      var m := if L < n then L else n;
      Printed(StoreAll(slots, maxLine, 0, lines), L) == Joined(lines[L - m..])
  {
    var L, n := |lines|, |slots|;
    var m := if L < n then L else n;
    var recent := lines[L - m..];
    var stored, w := StoreAll(slots, maxLine, 0, lines), WindowSlots(L, n);
    assert Shown(stored, w) == recent by {
      forall k | 0 <= k < |recent|
        ensures NUL !in recent[k]
      {
        assert recent[k] == lines[L - m + k];
      }
      CStrsOfPlainLines(recent);
      WindowShowsLastLines(slots, maxLine, lines);
    }
    PrintedSlotsJoined(stored, w);
  }

  /** Slots the window does not name do not affect what is shown. */
  lemma ShownAgree(slots: seq<seq<byte>>, other: seq<seq<byte>>, w: seq<nat>)
    requires forall k :: 0 <= k < |w| ==> w[k] < |slots| && w[k] < |other|
    requires forall k :: 0 <= k < |w| ==> other[w[k]] == slots[w[k]]
    ensures Shown(other, w) == Shown(slots, w)
  {
  }

  /** Before the ring wraps, a trailing fragment lands in a slot outside the window: the
      window shows the completed lines only. */
  lemma FragmentHiddenBeforeWrap(slots: seq<seq<byte>>, maxLine: nat, lines: seq<seq<byte>>,
                                 partial: seq<byte>)
    requires |slots| > 0 && Shaped(slots, maxLine) && Fits(lines, maxLine)
    requires |lines| < |slots| && |partial| < maxLine
    ensures Shown(Finish(StoreAll(slots, maxLine, 0, lines), maxLine, |lines|, partial),
                  WindowSlots(|lines|, |slots|)) == CStrs(lines)
  {
    var n, L := |slots|, |lines|;
    var stored := StoreAll(slots, maxLine, 0, lines);
    var finished := Finish(stored, maxLine, L, partial);
    var w := WindowSlots(L, n);
    forall k | 0 <= k < |w| ensures finished[w[k]] == stored[w[k]] {
      assert w[k] == k && k != SlotOf(L, n);
    }
    ShownAgree(stored, finished, w);
    WindowShowsLastLines(slots, maxLine, lines);
    assert lines[L - L..] == lines;
  }

  /** Once the ring has wrapped, the window starts at the slot of line `lc` and names it only
      there. */
  lemma WrappedWindowStart(lc: nat, n: nat, k: nat)
    requires 0 < n <= lc && k < n
    ensures var w := WindowSlots(lc, n); w[0] == SlotOf(lc, n) && (k > 0 ==> w[k] != SlotOf(lc, n))
  {
    var w := WindowSlots(lc, n);
    assert SlotOf(lc, n) == SlotOf(lc - n, n) == w[0];
    if k > 0 {
      assert w[k] == SlotOf(lc - n + k, n);
      SlotsDiffer(lc - n, k, n);
    }
  }

  /** Once the ring has wrapped, storing a fragment as line `lc` puts it where the window
      starts. */
  lemma StoreShownFirst(stored: seq<seq<byte>>, maxLine: nat, lc: nat, partial: seq<byte>)
    requires |stored| > 0 && Shaped(stored, maxLine) && lc >= |stored| && |partial| < maxLine
    ensures Shown(Store(stored, maxLine, lc, partial), WindowSlots(lc, |stored|))[0] == CStr(partial)
  {
    var w := WindowSlots(lc, |stored|);
    var stored' := Store(stored, maxLine, lc, partial);
    StoreSlots(stored, maxLine, lc, partial);
    WrappedWindowStart(lc, |stored|, 0);
    assert Shown(stored', w)[0] == CStr(stored'[w[0]]);
  }

  /** ... and leaves the rest of the window as it was. */
  lemma StoreKeepsRestOfWindow(stored: seq<seq<byte>>, maxLine: nat, lc: nat, partial: seq<byte>)
    requires |stored| > 0 && Shaped(stored, maxLine) && lc >= |stored| && |partial| < maxLine
    ensures var w := WindowSlots(lc, |stored|);
      Shown(Store(stored, maxLine, lc, partial), w)[1..] == Shown(stored, w)[1..]
  {
    var n := |stored|;
    var w := WindowSlots(lc, n);
    var stored' := Store(stored, maxLine, lc, partial);
    var shown, before := Shown(stored', w), Shown(stored, w);
    StoreSlots(stored, maxLine, lc, partial);
    forall k | 1 <= k < n
      ensures shown[k] == before[k]
    {
      WrappedWindowStart(lc, n, k);
      assert stored'[w[k]] == stored[w[k]];
    }
  }

  lemma CStrsTail(lines: seq<seq<byte>>, a: nat)
    requires a < |lines|
    ensures CStrs(lines[a..])[1..] == CStrs(lines[a + 1..])
  {
    forall k | 0 <= k < |lines| - a - 1
      ensures CStrs(lines[a..])[1..][k] == CStrs(lines[a + 1..])[k]
    {
      assert lines[a..][k + 1] == lines[a + 1..][k];
    }
  }

  /** Once the ring has wrapped, a non-empty trailing fragment overwrites the slot of the
      oldest line in the window: it is shown FIRST, followed by the last `n - 1` lines. */
  lemma FragmentShownFirstAfterWrap(slots: seq<seq<byte>>, maxLine: nat, lines: seq<seq<byte>>,
                                    partial: seq<byte>)
    requires |slots| > 0 && Shaped(slots, maxLine) && Fits(lines, maxLine)
    requires |lines| >= |slots| && |partial| < maxLine && partial != []
    ensures var shown := Shown(Finish(StoreAll(slots, maxLine, 0, lines), maxLine, |lines|, partial),
                               WindowSlots(|lines|, |slots|));
      && |shown| == |slots|
      && shown[0] == CStr(partial)
      && shown[1..] == CStrs(lines[|lines| - |slots| + 1..])
  {
    var n, L := |slots|, |lines|;
    var stored := StoreAll(slots, maxLine, 0, lines);
    assert Finish(stored, maxLine, L, partial) == Store(stored, maxLine, L, partial);
    StoreShownFirst(stored, maxLine, L, partial);
    StoreKeepsRestOfWindow(stored, maxLine, L, partial);
    WindowShowsLastLines(slots, maxLine, lines);
    CStrsTail(lines, L - n);
  }
}
