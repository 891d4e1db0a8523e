/** What the two sessions of src/main.c promise as a whole: the cleanup they run on every path,
    the tail they print, and what the follow loop copies to standard output. */
module SessionFacts {
  import opened Types
  import opened LineScan
  import opened LineRing
  import opened Watch
  import opened Ktail
  import opened Session

  // ---------------------------------------------------------------------------------------
  // cleanup and return code

  /** A session that returns has run the cleanup its labels lay out, returns 0 exactly when no
      call it acted on failed, and hands `fclose` a NULL stream exactly when a reopen did not
      find the file. */
  ghost predicate CleansUp(run: Run) {
    run.ending.Returned? ==>
      CleanupOrder(run.steps) && ReturnCode(run.ending.ret, run.steps) && NullClose(run.steps)
  }

  /** `ktail_free` comes last, `ktail_close` just before it exactly when `ktail_open`
      succeeded, and `ktail_wait_close` just before that exactly when `ktail_wait_init` was
      called. */
  ghost predicate CleanupOrder(s: seq<Step>) {
    && |s| >= 2 && s[|s| - 1] == Freed
    && (s[0] == Opened(0) <==> s[|s| - 2].Closed?)
    && (WatchSetUp in s <==> |s| >= 3 && s[|s| - 3] == WatchClosed)
  }

  /** The session returns 0 when no call failed and -EIO when one did. */
  ghost predicate ReturnCode(ret: int, s: seq<Step>) {
    && (ret == 0 <==> forall x :: x in s ==> !Fails(x))
    && (ret == 0 || ret == -EIO)
  }

  /** `fclose` is handed a NULL stream exactly when a reopen did not find the file. */
  ghost predicate NullClose(s: seq<Step>) {
    Closed(true) in s <==> Reopened(-EIO) in s
  }

  lemma TailCleansUp(n: nat, maxLine: nat, junk: byte, disk: FileState)
    requires 0 < n <= SIZE_MAX && maxLine >= 2
    ensures CleansUp(TailRun(n, maxLine, junk, disk))
  {
    var run := TailRun(n, maxLine, junk, disk);
    if run.ending.Returned? {
      var s := run.steps;
      if run.ending.ret == 0 {
        assert s == [Opened(0), ReadDone(0), PrintedTail, Closed(false), Freed];
        forall x | x in s ensures !Fails(x) {}
      } else {
        assert s == [Opened(-EIO), Freed] || s == [Opened(0), ReadDone(-EIO), Closed(false), Freed];
        assert s[0] in s && s[1] in s && (Fails(s[0]) || Fails(s[1]));
      }
    }
  }

  lemma FollowCleansUp(n: nat, maxLine: nat, junk: byte, disk: FileState, rounds: seq<Round>)
    requires 0 < n <= SIZE_MAX && maxLine >= 2
    ensures CleansUp(FollowRun(n, maxLine, junk, disk, rounds))
  {
    var tail := TailRun(n, maxLine, junk, disk);
    if tail.ending != Returned(0) || disk.Missing? {
      TailCleansUp(n, maxLine, junk, disk);
    } else {
      var bytes := Scan(disk.content, maxLine).counted;
      LoopShape(rounds, 0, bytes);
      PassesCalls(FollowLoop(rounds, 0, bytes));
      FollowEndCleansUp(tail.out, FollowLoop(rounds, 0, bytes));
    }
  }

  /** What the cleanup needs to know of the loop: it only waits, reopens and copies; it failed
      exactly when one of those calls failed; and it lost the stream exactly when a reopen did
      not find the file. */
  ghost predicate LoopCalls(l: Loop) {
    && (forall x :: x in l.steps ==> x.Waited? || x.Reopened? || x.Streamed?)
    && (l.exit == Failed <==> exists x :: x in l.steps && Fails(x))
    && (Reopened(-EIO) in l.steps <==> StreamLost(l))
  }

  /** A loop made of passes has those calls. */
  lemma PassesCalls(l: Loop)
    requires Passes(l.steps, l.exit == Failed)
    ensures LoopCalls(l)
  {
    PassesFail(l.steps, l.exit == Failed);
    LoopCallsOnly(l.steps);
    if l.exit == Failed {
      var i :| 0 <= i < |l.steps| && Fails(l.steps[i]);
      assert l.steps[i] in l.steps;
    }
  }

  /** The cleanup after the follow loop, whatever the printed tail. */
  lemma FollowEndCleansUp(printed: seq<byte>, loop: Loop)
    requires LoopCalls(loop)
    ensures CleansUp(FollowEnd(printed, loop))
  {
    if loop.exit != Unfinished {
      var s := FollowEnd(printed, loop).steps;
      FollowEndSteps(printed, loop);
      assert CleanupOrder(s) by {
        assert s[0] == Opened(0);
      }
    }
  }

  /** The calls of a follow session that left its loop: those before the loop, the loop's,
      then the three cleanup calls. */
  lemma FollowEndSteps(printed: seq<byte>, loop: Loop)
    requires loop.exit != Unfinished
    ensures var s := FollowEnd(printed, loop).steps;
      var head: seq<Step> := [Opened(0), ReadDone(0), PrintedTail, WatchSetUp];
      && |s| == |loop.steps| + 7
      && s[|s| - 1] == Freed && s[|s| - 2] == Closed(StreamLost(loop)) && s[|s| - 3] == WatchClosed
      && forall x :: x in s <==> x in head || x in loop.steps || x in [WatchClosed, Closed(StreamLost(loop)), Freed]
  {
  }

  /** The loop makes no calls but waits, reopens and copies. */
  lemma LoopCallsOnly(steps: seq<Step>)
    requires forall i :: 0 <= i < |steps| ==> steps[i].Waited? || steps[i].Reopened? || steps[i].Streamed?
    ensures forall x :: x in steps ==> x.Waited? || x.Reopened? || x.Streamed?
  {
  }

  // ---------------------------------------------------------------------------------------
  // the printed tail

  /** A file whose lines are all shorter than `maxLine - 1` bytes and free of NUL, read and printed by
      `ktail()`: the session returns 0 having printed exactly the last `min(L, n)` of its `L`
      lines, oldest first, whatever the slots held before. */
  lemma TailPrintsLastLines(n: nat, maxLine: nat, junk: byte, lines: seq<seq<byte>>)
    requires 0 < n && PTR_SIZE * n <= SIZE_MAX && maxLine >= 2
    requires NoNewlines(lines) && forall k :: 0 <= k < |lines| ==> |lines[k]| < maxLine - 1
    requires forall k :: 0 <= k < |lines| ==> NUL !in lines[k]
    ensures var L := |lines|;
      var m := if L < n then L else n;
      TailRun(n, maxLine, junk, Present(Joined(lines), false))
        == Run(Returned(0), [Opened(0), ReadDone(0), PrintedTail, Closed(false), Freed], Joined(lines[L - m..]))
  {
    var input := Joined(lines);
    JoinedNoLongLine(lines, maxLine);
    JoinedHasNoNul(lines);
    if lines != [] {
      JoinedEndsWithNewline(lines);
    }
    TailOfText(input, InitialSlots(n, maxLine, junk), maxLine);
    var r := Scan(input, maxLine);
    ScanOfShortLines(input, maxLine);
    assert Joined(r.lines) + [] == Joined(lines) + [];
    JoinedUnique(r.lines, [], lines, []);
  }

  /** `Joined(lines)` has no line of `maxLine - 1` bytes or more when none of `lines` does. */
  lemma {:induction false} JoinedNoLongLine(lines: seq<seq<byte>>, maxLine: nat)
    requires maxLine >= 2 && NoNewlines(lines) && forall k :: 0 <= k < |lines| ==> |lines[k]| < maxLine - 1
    ensures NoLongLine(Joined(lines), maxLine)
  {
    if lines != [] {
      var init := lines[..|lines| - 1];
      JoinedNoLongLine(init, maxLine);
      if init != [] {
        JoinedEndsWithNewline(init);
      }
      NoLongLineAppend(Joined(init), lines[|lines| - 1], maxLine);
    }
  }

  /** A short line appended after complete lines keeps every line short. */
  lemma NoLongLineAppend(text: seq<byte>, line: seq<byte>, maxLine: nat)
    requires NoLongLine(text, maxLine) && (text == [] || text[|text| - 1] == NL)
    requires NL !in line && |line| < maxLine - 1
    ensures NoLongLine(text + line + [NL], maxLine)
  {
    var s := text + line + [NL];
    forall k | 0 <= k <= |s|
      ensures RunLength(s, k) < maxLine - 1
    {
      if k <= |text| {
        RunLengthPrefix(s, text, k);
      } else if k <= |text| + |line| {
        forall j | |text| <= j < k ensures s[j] != NL {
          assert s[j] == line[j - |text|];
        }
        RunLengthInLine(s, |text|, k);
      }
    }
  }

  /** The run before position `k` only looks at bytes before `k`. */
  lemma {:induction false} RunLengthPrefix(s: seq<byte>, t: seq<byte>, k: nat)
    requires t <= s && k <= |t|
    ensures RunLength(s, k) == RunLength(t, k)
  {
    if k > 0 {
      RunLengthPrefix(s, t, k - 1);
    }
  }

  /** Inside a line that starts at `a`, the run before `k` is `k - a` bytes long. */
  lemma {:induction false} RunLengthInLine(s: seq<byte>, a: nat, k: nat)
    requires a <= k <= |s| && (a == 0 || s[a - 1] == NL)
    requires forall j :: a <= j < k ==> s[j] != NL
    ensures RunLength(s, k) == k - a
  {
    if k > a {
      RunLengthInLine(s, a, k - 1);
    } else if k > 0 {
      assert s[k - 1] == NL;
    }
  }

  /** `Joined(lines)` holds no NUL when none of `lines` does. */
  lemma {:induction false} JoinedHasNoNul(lines: seq<seq<byte>>)
    requires forall k :: 0 <= k < |lines| ==> NUL !in lines[k]
    ensures NUL !in Joined(lines)
  {
    if lines != [] {
      JoinedHasNoNul(lines[..|lines| - 1]);
    }
  }

  // ---------------------------------------------------------------------------------------
  // the follow loop

  /** Round `round`, entered with `b` bytes consumed, finds the file grown to `content`:
      `stop` is not set, the wait backend reports a change at that byte count (for polling,
      a `stat` size above `b` is one), and the file is there and reads cleanly. */
  ghost predicate GrowsAt(round: Round, content: seq<byte>, b: nat) {
    && !round.stop && round.disk == Present(content, false)
    && WaitOutcome(round.obs, b) == WaitReturned(0)
  }

  /** A file that is only appended to: rounds `k` up to `|files| - 1` find it holding
      `files[k]`, ..., each a prefix of the final `last` and none shorter than the one before,
      and the round after them sees `stop`. Then the loop, entered with `|base|` bytes
      consumed, makes one successful pass per round and copies exactly the bytes appended
      after `base`, each once. */
  lemma {:induction false} FollowStreamsAppended(rounds: seq<Round>, files: seq<seq<byte>>, k: nat,
                                                  base: seq<byte>, last: seq<byte>)
    requires |rounds| == |files| + 1 && k <= |files| && rounds[|files|].stop
    requires k < |files| ==> GrowsAt(rounds[k], files[k], |base|)
    requires forall j :: k < j < |files| ==> GrowsAt(rounds[j], files[j], |files[j - 1]|)
    requires base <= last && |last| <= LONG_MAX
    requires forall j :: k <= j < |files| ==> files[j] <= last
    requires k < |files| ==> |base| <= |files[k]|
    requires forall j :: k <= j < |files| - 1 ==> |files[j]| <= |files[j + 1]|
    requires last == if k == |files| then base else files[|files| - 1]
    decreases |files| - k
    ensures FollowLoop(rounds, k, |base|) == Loop(Stopped, Cycles(|files| - k), last[|base|..])
  {
    if k == |files| {
      return;
    }
    var b, c := |base|, |files[k]|;
    var rest := FollowLoop(rounds, k + 1, c);
    assert rest == Loop(Stopped, Cycles(|files| - (k + 1)), last[c..]) by {
      FollowStreamsAppended(rounds, files, k + 1, files[k], last);
    }
    GrowsStep(rounds, k, files[k], b);
    assert files[k][b..] + last[c..] == last[b..] by {
      assert files[k] == last[..c];
    }
  }

  /** A round that, entered with `b` bytes consumed, finds the file grown to `content` makes
      one successful pass, copies what follows the first `b` bytes and hands the loop on with `|content|` bytes consumed. */
  lemma GrowsStep(rounds: seq<Round>, k: nat, content: seq<byte>, b: nat)
    requires k < |rounds| && GrowsAt(rounds[k], content, b) && b <= |content| <= LONG_MAX
    ensures var rest := FollowLoop(rounds, k + 1, |content|);
      FollowLoop(rounds, k, b)
        == Loop(rest.exit, [Waited(0), Reopened(0), Streamed(0)] + rest.steps, content[b..] + rest.out)
  {
    assert WaitOutcome(rounds[k].obs, b) == WaitReturned(0);
    assert AsLong(b) == b;
  }

  /** The byte count `ktail_read` leaves behind does not include the bytes its skip loop
      dropped. So after a line of `maxLine` bytes or more, the first reopen seeks back into
      that line and prints its dropped end as a line of its own, although the file did not
      change; byte `maxLine - 1` of the line is counted but never shown. */
  lemma FollowRepeatsSkippedBytes(n: nat, maxLine: nat, junk: byte, line: seq<byte>,
                                  obs: WaitObs, last: Round)
    requires 0 < n && PTR_SIZE * n <= SIZE_MAX && maxLine >= 2
    requires NL !in line && maxLine <= |line| < LONG_MAX && last.stop
    requires WaitOutcome(obs, maxLine) == WaitReturned(0)
    ensures var disk := Present(line + [NL], false);
      var rounds := [Round(false, obs, disk), last];
      FollowRun(n, maxLine, junk, disk, rounds)
        == FollowEnd(TailText(n, maxLine, junk, Scanned([line[..maxLine - 1]], [], maxLine)),
                     Loop(Stopped, [Waited(0), Reopened(0), Streamed(0)], line[maxLine..] + [NL]))
  {
    var content := line + [NL];
    var disk := Present(content, false);
    var rounds := [Round(false, obs, disk), last];
    ScanTruncatesLongLine(line, maxLine);
    assert GrowsAt(rounds[0], content, maxLine);
    FollowStreamsAppended(rounds, [content], 0, content[..maxLine], content);
    FollowRunShown(n, maxLine, junk, disk, rounds);
    assert content[maxLine..] == line[maxLine..] + [NL];
  }
}
