/** src/main.c: the signal handler and the two sessions `ktail()` and `ktail_with_follow()`.
    A session is described by the calls it makes into src/ktail.c, in order,
    with the return codes it acts on, and by what it writes to standard output. The environment
    (the file as each `fopen` finds it, what the wait backend observes, when the `stop` flag is
    set) is given as parameters. */
module Session {
  import opened Types
  import opened LineScan
  import opened LineRing
  import opened Watch
  import opened Ktail
  import Utils

  /** `n` when `--number` is not given. */
  const DEFAULT_N: int := 1000

  // ---------------------------------------------------------------------------------------
  // the signal handler

  /** The `static volatile int stop` of src/main.c. */
  class StopFlag {
    var stop: int

    constructor ()
      ensures stop == 0
    {
      stop := 0;
    }

    /** `term_handler`, installed for SIGTERM and SIGINT: whatever the signal, ask the follow
        loop to end. */
    method TermHandler(sig: int)
      modifies this
      ensures stop == 1
    {
      stop := 1;
    }
  }

  // ---------------------------------------------------------------------------------------
  // sessions

  /** A call a session makes, with the return code it acts on. */
  datatype Step =
    | Opened(rc: int)          // ktail_open
    | ReadDone(rc: int)        // ktail_read, when it returns
    | PrintedTail              // ktail_print
    | WatchSetUp               // ktail_wait_init, whose result is not looked at
    | Waited(rc: int)          // ktail_wait
    | Reopened(rc: int)        // ktail_reopen
    | Streamed(rc: int)        // ktail_read_and_print
    | WatchClosed              // ktail_wait_close
    | Closed(nullStream: bool) // ktail_close; `nullStream` when it hands fclose a NULL stream
    | Freed                    // ktail_free

  /** How a session ends: it returns `ret`; the process exits with `status` (in `err` or
      `serr`, or in `main`); it is stuck in the skip loop of `ktail_read`; or it is still in
      the follow loop when the given observations run out. */
  datatype Ending = Returned(ret: int) | Exited(status: int) | Spinning | Following

  datatype Run = Run(ending: Ending, steps: seq<Step>, out: seq<byte>)

  /** One pass of the follow loop as the environment decides it: whether `stop` is set when the
      loop condition is tested, what the wait backend observes, and the file as the reopen
      finds it. */
  datatype Round = Round(stop: bool, obs: WaitObs, disk: FileState)

  /** Why the follow loop is left: `stop` was seen, a call failed (`goto out2`), or the loop is
      still running when the rounds run out. */
  datatype LoopExit = Stopped | Failed | Unfinished

  datatype Loop = Loop(exit: LoopExit, steps: seq<Step>, out: seq<byte>)

  /** One test of the loop condition and, when `stop` is not set, one pass of the body, with
      `bytes` consumed so far: the calls made, the bytes copied to standard output, and how the
      loop is left (`None` when it goes round again). */
  datatype Turn = Turn(steps: seq<Step>, chunk: seq<byte>, ends: Option<LoopExit>)

  function OneTurn(round: Round, bytes: nat): Turn {
    if round.stop then Turn([], [], Some(Stopped))
    else match WaitOutcome(round.obs, bytes)
      case Blocked => Turn([], [], Some(Unfinished))
      case WaitReturned(wrc) =>
        if wrc != 0 then Turn([Waited(wrc)], [], Some(Failed))
        else match round.disk
          case Missing => Turn([Waited(0), Reopened(-EIO)], [], Some(Failed))
          case Present(content, fault) =>
            if AsLong(bytes) < 0 then Turn([Waited(0), Reopened(-EINVAL)], [], Some(Failed))
            else
              var chunk := From(content, AsLong(bytes));
              if fault then Turn([Waited(0), Reopened(0), Streamed(-EIO)], chunk, Some(Failed))
              else Turn([Waited(0), Reopened(0), Streamed(0)], chunk, None)
  }

  /** The follow loop from round `k` on, with `bytes` consumed so far. */
  function FollowLoop(rounds: seq<Round>, k: nat, bytes: nat): Loop
    requires k <= |rounds|
    decreases |rounds| - k
  {
    if k == |rounds| then Loop(Unfinished, [], [])
    else
      var t := OneTurn(rounds[k], bytes);
      if t.ends.Some? then Loop(t.ends.value, t.steps, t.chunk)
      else
        var rest := FollowLoop(rounds, k + 1, bytes + |t.chunk|);
        Loop(rest.exit, t.steps + rest.steps, t.chunk + rest.out)
  }

  /** The loop was left through a failed `ktail_reopen` whose `fopen` failed, so the stream
      pointer is NULL. */
  predicate StreamLost(l: Loop) {
    l.exit == Failed && |l.steps| > 0 && l.steps[|l.steps| - 1] == Reopened(-EIO)
  }

  /** `c` passes of the loop in which every call succeeded. */
  function Cycles(c: nat): (s: seq<Step>)
    ensures |s| == 3 * c
  {
    if c == 0 then [] else [Waited(0), Reopened(0), Streamed(0)] + Cycles(c - 1)
  }

  /** The calls of a pass that ends the loop by failing: a wait that fails, or a wait that
      succeeds and a reopen that fails, or both succeeding and the copy failing. */
  predicate FailedPass(t: seq<Step>) {
    || (|t| == 1 && t[0].Waited? && t[0].rc != 0)
    || (|t| == 2 && t[0] == Waited(0) && t[1].Reopened? && t[1].rc != 0)
    || (|t| == 3 && t[0] == Waited(0) && t[1] == Reopened(0) && t[2].Streamed? && t[2].rc != 0)
  }

  /** The loop condition and body of `ktail_with_follow` once: unless `stop` is set, wait for a
      change, reopen the file at the byte count and copy what follows to standard output. */
  method FollowTurn(ctx: Context, round: Round) returns (t: Turn)
    requires ctx.f != null
    modifies ctx
    ensures t == OneTurn(round, old(ctx.bytes))
    ensures ctx.bytes == old(ctx.bytes) + |t.chunk| && ctx.lineCounter == old(ctx.lineCounter)
    ensures ctx.f == null <==> t.steps == [Waited(0), Reopened(-EIO)]
  {
    if round.stop {
      return Turn([], [], Some(Stopped));
    }
    var w := Wait(ctx, round.obs);
    if w.Blocked? {
      return Turn([], [], Some(Unfinished));
    }
    if w.rc != 0 {
      return Turn([Waited(w.rc)], [], Some(Failed));
    }
    var bytes := ctx.bytes;
    var rr := Reopen(ctx, round.disk);
    if rr != 0 {
      return Turn([Waited(0), Reopened(rr)], [], Some(Failed));
    }
    var rc, chunk := ReadAndPrint(ctx);
    assert chunk == From(round.disk.content, AsLong(bytes));
    if rc != 0 {
      return Turn([Waited(0), Reopened(0), Streamed(rc)], chunk, Some(Failed));
    }
    t := Turn([Waited(0), Reopened(0), Streamed(0)], chunk, None);
  }

  /** The while loop of `ktail_with_follow` on a context whose stream is open: wait, reopen and
      copy the new bytes, until `stop` is seen or a call fails. */
  method FollowChanges(ctx: Context, rounds: seq<Round>) returns (exit: LoopExit, steps: seq<Step>, out: seq<byte>)
    requires ctx.f != null
    modifies ctx
    ensures Loop(exit, steps, out) == FollowLoop(rounds, 0, old(ctx.bytes))
    ensures ctx.f == null <==> StreamLost(Loop(exit, steps, out))
    ensures ctx.lineCounter == old(ctx.lineCounter)
  {
    ghost var whole := FollowLoop(rounds, 0, ctx.bytes);
    var k := 0;
    steps, out := [], [];
    assert whole == After([], [], whole);
    while k < |rounds|
      invariant k <= |rounds| && ctx.f != null && ctx.lineCounter == old(ctx.lineCounter)
      invariant whole == After(steps, out, FollowLoop(rounds, k, ctx.bytes))
    {
      ghost var bytes := ctx.bytes;
      var t := FollowTurn(ctx, rounds[k]);
      if t.ends.Some? {
        LoopEnds(rounds, k, bytes, t, steps, out, whole);
        exit, steps, out := t.ends.value, steps + t.steps, out + t.chunk;
        return;
      }
      LoopGoesOn(rounds, k, bytes, t, steps, out, whole);
      steps, out := steps + t.steps, out + t.chunk;
      k := k + 1;
    }
    LoopRunsOut(rounds, steps, out, whole);
    exit := Unfinished;
  }

  /** The loop's calls and output when `steps` and `out` precede the loop `l`. */
  function After(steps: seq<Step>, out: seq<byte>, l: Loop): Loop {
    Loop(l.exit, steps + l.steps, out + l.out)
  }

  /** A pass that leaves the loop ends it: the loop's calls and output are those made so far
      and those of the pass, and the stream is lost exactly when the pass's reopen failed to
      open the file. */
  lemma LoopEnds(rounds: seq<Round>, k: nat, bytes: nat, t: Turn, steps: seq<Step>, out: seq<byte>, whole: Loop)
    requires k < |rounds| && t == OneTurn(rounds[k], bytes) && t.ends.Some?
    requires whole == After(steps, out, FollowLoop(rounds, k, bytes))
    ensures whole == Loop(t.ends.value, steps + t.steps, out + t.chunk)
    ensures StreamLost(whole) <==> t.steps == [Waited(0), Reopened(-EIO)]
  {
  }

  /** A pass in which every call succeeded makes the three calls and hands the loop on to the
      next round. */
  lemma TurnGoesOn(rounds: seq<Round>, k: nat, bytes: nat, t: Turn)
    requires k < |rounds| && t == OneTurn(rounds[k], bytes) && t.ends.None?
    ensures t.steps == [Waited(0), Reopened(0), Streamed(0)]
    ensures FollowLoop(rounds, k, bytes) == After(t.steps, t.chunk, FollowLoop(rounds, k + 1, bytes + |t.chunk|))
  {
  }

  /** A pass in which every call succeeded is one more cycle and hands the loop on to the next
      round. */
  lemma LoopGoesOn(rounds: seq<Round>, k: nat, bytes: nat, t: Turn, steps: seq<Step>, out: seq<byte>, whole: Loop)
    requires k < |rounds| && t == OneTurn(rounds[k], bytes) && t.ends.None?
    requires whole == After(steps, out, FollowLoop(rounds, k, bytes))
    ensures whole == After(steps + t.steps, out + t.chunk, FollowLoop(rounds, k + 1, bytes + |t.chunk|))
  {
    TurnGoesOn(rounds, k, bytes, t);
    var rest := FollowLoop(rounds, k + 1, bytes + |t.chunk|);
    assert (steps + t.steps) + rest.steps == steps + (t.steps + rest.steps);
    assert (out + t.chunk) + rest.out == out + (t.chunk + rest.out);
  }

  /** With every round used, the loop is still running and has made exactly the calls so far. */
  lemma LoopRunsOut(rounds: seq<Round>, steps: seq<Step>, out: seq<byte>, whole: Loop)
    requires whole == After(steps, out, FollowLoop(rounds, |rounds|, 0))
    ensures whole == Loop(Unfinished, steps, out)
  {
    assert steps + [] == steps && out + [] == out;
  }

  /** A call whose nonzero return code makes the session give up. */
  predicate Fails(s: Step) {
    (s.Opened? || s.ReadDone? || s.Waited? || s.Reopened? || s.Streamed?) && s.rc != 0
  }

  /** `steps` are passes in which every call succeeded, followed, when `failed`, by one pass
      whose last call failed. */
  predicate Passes(steps: seq<Step>, failed: bool)
    decreases |steps|
  {
    if |steps| >= 3 && steps[..3] == [Waited(0), Reopened(0), Streamed(0)] then Passes(steps[3..], failed)
    else if failed then FailedPass(steps)
    else steps == []
  }

  /** In such passes a call fails exactly when the loop failed, and the stream is lost exactly
      when the last call is a reopen that failed with -EIO. */
  lemma {:induction false} PassesFail(steps: seq<Step>, failed: bool)
    requires Passes(steps, failed)
    decreases |steps|
    ensures failed <==> exists i :: 0 <= i < |steps| && Fails(steps[i])
    ensures !failed ==> |steps| % 3 == 0
    ensures forall i :: 0 <= i < |steps| ==> steps[i].Waited? || steps[i].Reopened? || steps[i].Streamed?
    ensures Reopened(-EIO) in steps <==> |steps| > 0 && steps[|steps| - 1] == Reopened(-EIO)
    ensures Reopened(-EIO) in steps ==> failed
  {
    if |steps| >= 3 && steps[..3] == [Waited(0), Reopened(0), Streamed(0)] {
      PassesFail(steps[3..], failed);
      assert steps == steps[..3] + steps[3..];
      assert forall i :: 3 <= i < |steps| ==> steps[i] == steps[3..][i - 3];
      if failed {
        var j :| 0 <= j < |steps[3..]| && Fails(steps[3..][j]);
        assert Fails(steps[j + 3]);
      }
      assert Reopened(-EIO) in steps <==> Reopened(-EIO) in steps[3..];
    }
  }

  /** A pass that leaves the loop makes the calls of at most one pass. */
  lemma TurnEnds(round: Round, bytes: nat)
    requires OneTurn(round, bytes).ends.Some?
    ensures var t := OneTurn(round, bytes);
      && Passes(t.steps, t.ends == Some(Failed)) && |t.steps| <= 3
      && (t.ends == Some(Stopped) <==> round.stop) && (t.ends == Some(Stopped) ==> t.steps == [])
  {
    var t := OneTurn(round, bytes);
    if |t.steps| == 3 {
      assert t.steps[..3][2] == t.steps[2];
    }
  }

  /** The follow loop is a run of passes in which every call succeeded, followed, when it is left
      through `goto out2`, by one pass whose last call failed; it is left with `stop` set only
      after testing it at the head of the loop. */
  lemma {:induction false} LoopShape(rounds: seq<Round>, k: nat, bytes: nat)
    requires k <= |rounds|
    decreases |rounds| - k
    ensures var l := FollowLoop(rounds, k, bytes);
      && Passes(l.steps, l.exit == Failed) && k + |l.steps| / 3 <= |rounds|
      && (l.exit == Stopped ==> k + |l.steps| / 3 < |rounds| && rounds[k + |l.steps| / 3].stop)
  {
    if k < |rounds| {
      var t := OneTurn(rounds[k], bytes);
      if t.ends.None? {
        LoopShape(rounds, k + 1, bytes + |t.chunk|);
        TurnGoesOn(rounds, k, bytes, t);
        var l, rest := FollowLoop(rounds, k, bytes), FollowLoop(rounds, k + 1, bytes + |t.chunk|);
        assert l.steps[..3] == t.steps && l.steps[3..] == rest.steps;
      } else {
        TurnEnds(rounds[k], bytes);
      }
    }
  }

  // ---------------------------------------------------------------------------------------
  // the two sessions

  /** What `ktail_print` writes after `ktail_read` scanned the file into buffers fresh from
      `ktail_init`. */
  function TailText(n: nat, maxLine: nat, junk: byte, pass: Pass): seq<byte>
    requires n > 0 && maxLine >= 2 && pass.Scanned? && Fits(pass.lines, maxLine) && |pass.partial| < maxLine
  {
    var L := |pass.lines|;
    Printed(Finish(StoreAll(InitialSlots(n, maxLine, junk), maxLine, 0, pass.lines), maxLine, L, pass.partial), L)
  }

  /** `ktail()` with `config.n == n`, line buffers of `maxLine` bytes that `malloc` hands back
      holding `junk`, and the file as `fopen` finds it. */
  function TailRun(n: nat, maxLine: nat, junk: byte, disk: FileState): Run
    requires 0 < n <= SIZE_MAX && maxLine >= 2
  {
    if PTR_SIZE * n > SIZE_MAX then Run(Exited(EXIT_FAILURE), [], [])
    else match disk
      case Missing => Run(Returned(-EIO), [Opened(-EIO), Freed], [])
      case Present(content, fault) =>
        var pass := Scan(content, maxLine);
        if pass.Diverges? then Run(Spinning, [Opened(0)], [])
        else if fault then Run(Returned(-EIO), [Opened(0), ReadDone(-EIO), Closed(false), Freed], [])
        else Run(Returned(0), [Opened(0), ReadDone(0), PrintedTail, Closed(false), Freed],
                 TailText(n, maxLine, junk, pass))
  }

  /** `ktail_with_follow()`: up to the printed tail it is `ktail()`; then the follow loop runs
      from the byte count `ktail_read` reached. */
  function FollowRun(n: nat, maxLine: nat, junk: byte, disk: FileState, rounds: seq<Round>): Run
    requires 0 < n <= SIZE_MAX && maxLine >= 2
  {
    var tail := TailRun(n, maxLine, junk, disk);
    if tail.ending != Returned(0) || disk.Missing? then tail
    else FollowEnd(tail.out, FollowLoop(rounds, 0, Scan(disk.content, maxLine).counted))
  }

  /** The follow session once the tail `printed` is on standard output and the loop went as
      `loop`: the cleanup closes the watch, the stream and the buffers, in that order, and the
      session returns 0 only when the loop saw `stop`. */
  function FollowEnd(printed: seq<byte>, loop: Loop): Run {
    var steps := [Opened(0), ReadDone(0), PrintedTail, WatchSetUp] + loop.steps;
    var out := printed + loop.out;
    if loop.exit == Unfinished then Run(Following, steps, out)
    else
      var ret := if loop.exit == Stopped then 0 else -EIO;
      Run(Returned(ret), steps + [WatchClosed] + [Closed(StreamLost(loop))] + [Freed], out)
  }

  /** The follow session once the tail is printed, as `FollowEnd` describes it. */
  lemma FollowRunShown(n: nat, maxLine: nat, junk: byte, disk: FileState, rounds: seq<Round>)
    requires 0 < n <= SIZE_MAX && maxLine >= 2 && PTR_SIZE * n <= SIZE_MAX
    requires disk.Present? && !disk.fault && Scan(disk.content, maxLine).Scanned?
    ensures var pass := Scan(disk.content, maxLine);
      FollowRun(n, maxLine, junk, disk, rounds)
        == FollowEnd(TailText(n, maxLine, junk, pass), FollowLoop(rounds, 0, pass.counted))
  {
  }

  /** `ktail_read` and, when it returns 0, `ktail_print`, on a context fresh from `ktail_init`
      whose stream was just opened on a file holding `content`. */
  method ReadAndShow(ctx: Context, ghost junk: byte, ghost content: seq<byte>, ghost pass: Pass)
    returns (r: ReadOutcome, printed: seq<byte>)
    requires ctx.Valid() && ctx.f != null && ctx.f.Unread() == content && pass == Scan(content, ctx.maxLine)
    requires ctx.data[..] == InitialSlots(ctx.n, ctx.maxLine, junk) && ctx.lineCounter == 0 && ctx.bytes == 0
    modifies ctx, ctx.data, ctx.f
    ensures ctx.f == old(ctx.f) && ctx.f != null && ctx.f.fault == old(ctx.f.fault)
    ensures r == Hangs <==> pass.Diverges?
    ensures pass.Scanned? ==> r == Returns(if ctx.f.fault then -EIO else 0) && ctx.bytes == pass.counted
    ensures r == Returns(0) ==> printed == TailText(ctx.n, ctx.maxLine, junk, pass)
  {
    ghost var d0 := ctx.data[..];
    r := Read(ctx);
    printed := [];
    if r == Returns(0) {
      ghost var slots := ctx.data[..];
      assert slots == Finish(StoreAll(d0, ctx.maxLine, 0, pass.lines), ctx.maxLine, |pass.lines|, pass.partial);
      printed := Print(ctx);
      assert printed == Printed(slots, |pass.lines|);
    }
  }

  /** `ktail()`: the `goto out1` and `goto out0` of the C are the breaks out of the blocks
      `out1` and `out0`. */
  method Tail(n: nat, maxLine: nat, junk: byte, disk: FileState) returns (run: Run)
    requires 0 < n <= SIZE_MAX && maxLine >= 2
    ensures run == TailRun(n, maxLine, junk, disk)
  {
    var init := Init(n, maxLine, junk);
    if init.None? {
      return Run(Exited(EXIT_FAILURE), [], []);
    }
    var ctx := init.value;
    var ret := -EIO;
    var steps: seq<Step> := [];
    var out: seq<byte> := [];
    ghost var want := TailRun(n, maxLine, junk, disk);
    label out0: {
      var rc := Open(ctx, disk);
      steps := steps + [Opened(rc)];
      if rc != 0 {
        assert want == Run(Returned(-EIO), [Opened(-EIO), Freed], []);
        assert steps + [Freed] == [Opened(-EIO), Freed];
        assert want == Run(Returned(ret), steps + [Freed], out);
        break out0;
      }
      label out1: {
        ghost var pass := Scan(disk.content, maxLine);
        var r, printed := ReadAndShow(ctx, junk, disk.content, pass);
        if r.Hangs? {
          assert want == Run(Spinning, [Opened(0)], []);
          return Run(Spinning, steps, out);
        }
        TailRunRead(n, maxLine, junk, disk);
        steps := steps + [ReadDone(r.rc)];
        if r.rc != 0 {
          assert steps + [Closed(ctx.f == null)] + [Freed] == [Opened(0), ReadDone(-EIO), Closed(false), Freed];
          assert want == Run(Returned(ret), steps + [Closed(ctx.f == null)] + [Freed], out);
          break out1;
        }
        steps := steps + [PrintedTail];
        out := out + printed;
        assert out == printed;
        ret := 0;
        assert steps + [Closed(ctx.f == null)] + [Freed] == [Opened(0), ReadDone(0), PrintedTail, Closed(false), Freed];
        assert want == Run(Returned(ret), steps + [Closed(ctx.f == null)] + [Freed], out);
      }
      steps := steps + [Closed(ctx.f == null)];
    }
    steps := steps + [Freed];
    run := Run(Returned(ret), steps, out);
  }

  /** `ktail()` on a file that `ktail_read` gets to the end of. */
  lemma TailRunRead(n: nat, maxLine: nat, junk: byte, disk: FileState)
    requires 0 < n <= SIZE_MAX && maxLine >= 2 && PTR_SIZE * n <= SIZE_MAX
    requires disk.Present? && Scan(disk.content, maxLine).Scanned?
    ensures TailRun(n, maxLine, junk, disk)
      == if disk.fault then Run(Returned(-EIO), [Opened(0), ReadDone(-EIO), Closed(false), Freed], [])
         else Run(Returned(0), [Opened(0), ReadDone(0), PrintedTail, Closed(false), Freed],
                  TailText(n, maxLine, junk, Scan(disk.content, maxLine)))
  {
  }

  /** `ktail_with_follow()`: as `ktail()` up to the printed tail, then the follow loop, whose
      `goto out2` adds the closing of the watch to the cleanup. */
  method TailFollow(n: nat, maxLine: nat, junk: byte, disk: FileState, rounds: seq<Round>) returns (run: Run)
    requires 0 < n <= SIZE_MAX && maxLine >= 2
    ensures run == FollowRun(n, maxLine, junk, disk, rounds)
  {
    var init := Init(n, maxLine, junk);
    if init.None? {
      return Run(Exited(EXIT_FAILURE), [], []);
    }
    var ctx := init.value;
    var ret := -EIO;
    var steps: seq<Step> := [];
    var out: seq<byte> := [];
    ghost var want := FollowRun(n, maxLine, junk, disk, rounds);
    label out0: {
      var rc := Open(ctx, disk);
      steps := steps + [Opened(rc)];
      if rc != 0 {
        assert want == Run(Returned(-EIO), [Opened(-EIO), Freed], []);
        assert want == Run(Returned(ret), steps + [Freed], out);
        break out0;
      }
      label out1: {
        ghost var pass := Scan(disk.content, maxLine);
        var r, printed := ReadAndShow(ctx, junk, disk.content, pass);
        if r.Hangs? {
          assert want == Run(Spinning, [Opened(0)], []);
          return Run(Spinning, steps, out);
        }
        steps := steps + [ReadDone(r.rc)];
        if r.rc != 0 {
          assert want == Run(Returned(-EIO), [Opened(0), ReadDone(-EIO), Closed(false), Freed], []);
          assert want == Run(Returned(ret), steps + [Closed(ctx.f == null)] + [Freed], out);
          break out1;
        }
        steps := steps + [PrintedTail, WatchSetUp];
        out := out + printed;
        assert out == printed;
        assert steps == [Opened(0), ReadDone(0), PrintedTail, WatchSetUp];
        var exit, loopSteps, streamed := FollowChanges(ctx, rounds);
        FollowRunShown(n, maxLine, junk, disk, rounds);
        steps := steps + loopSteps;
        out := out + streamed;
        if exit == Unfinished {
          assert want == Run(Following, steps, out);
          return Run(Following, steps, out);
        }
        assert want == FollowEnd(printed, Loop(exit, loopSteps, streamed));
        if exit == Stopped {
          ret := 0;
        }
        steps := steps + [WatchClosed];
        assert want == Run(Returned(ret), steps + [Closed(ctx.f == null)] + [Freed], out);
      }
      steps := steps + [Closed(ctx.f == null)];
    }
    steps := steps + [Freed];
    run := Run(Returned(ret), steps, out);
    assert run == want;
  }
}
