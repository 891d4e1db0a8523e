/** `main` of src/main.c: the options as `getopt_long` hands them over, the checks on them, the
    choice of session and the exit status. */
module Cli {
  import opened Types
  import Utils
  import opened Ktail
  import opened Session

  /** One option as `getopt_long(argc, argv, "n:f", ...)` returns it: `-n`/`--number` with
      its argument, `-f`/`--follow`, or anything else (`'?'`). */
  datatype Opt = NumberOpt(arg: string) | FollowOpt | BadOpt

  /** What the argument checks decide: `print_usage_and_die`, the `serr` for a bad
      `--number`, or the settings stored in `config`. */
  datatype Args = Usage | BadNumber | Config(n: nat, follow: bool, file: string)

  /** The argument of the last `-n` among `opts`: each one overwrites `number_str`. */
  function LastNumber(opts: seq<Opt>): Option<string> {
    if opts == [] then None
    else if opts[|opts| - 1].NumberOpt? then Some(opts[|opts| - 1].arg)
    else LastNumber(opts[..|opts| - 1])
  }

  /** The decision `main` takes from the options and the operands left after them, with
      `errno` holding `errno0` when `kstrtol` is called. */
  function Parse(opts: seq<Opt>, operands: seq<string>, errno0: int): (a: Args)
    ensures a.Config? ==> 0 < a.n <= LONG_MAX && |operands| == 1 && a.file == operands[0]
    ensures a.Config? ==> a.follow == (FollowOpt in opts)
  {
    if BadOpt in opts || |operands| != 1 then Usage
    else
      var follow := FollowOpt in opts;
      match LastNumber(opts)
      case None => Config(DEFAULT_N, follow, operands[0])
      case Some(s) =>
        var k := Utils.Kstrtol(Some(s), Some(DEFAULT_N), errno0);
        if k.rc != 0 || k.res.value <= 0 then BadNumber
        else Config(k.res.value, follow, operands[0])
  }

  /** The option loop of `main` and the checks after it. */
  method ParseArgs(opts: seq<Opt>, operands: seq<string>, errno0: int) returns (args: Args)
    ensures args == Parse(opts, operands, errno0)
  {
    var numberStr: Option<string> := None;
    var follow := false;
    var i := 0;
    while i < |opts|
      invariant 0 <= i <= |opts|
      invariant numberStr == LastNumber(opts[..i])
      invariant follow == (FollowOpt in opts[..i])
      invariant BadOpt !in opts[..i]
    {
      match opts[i] {
        case NumberOpt(arg) =>
          numberStr := Some(arg);
        case FollowOpt =>
          follow := true;
        case BadOpt =>
          return Usage;
      }
      assert opts[..i + 1][..i] == opts[..i];
      i := i + 1;
    }
    assert opts[..i] == opts;
    if |operands| != 1 {
      return Usage;
    }
    var n: int := DEFAULT_N;
    if numberStr.Some? {
      var k := Utils.Kstrtol(Some(numberStr.value), Some(n), errno0);
      if k.rc != 0 || k.res.value <= 0 {
        return BadNumber;
      }
      n := k.res.value;
    }
    return Config(n, follow, operands[0]);
  }

  /** `return res ? EXIT_FAILURE : EXIT_SUCCESS`. */
  function ExitStatus(res: int): (status: int)
    ensures status == EXIT_SUCCESS <==> res == 0
    ensures status == EXIT_SUCCESS || status == EXIT_FAILURE
  {
    if res != 0 then EXIT_FAILURE else EXIT_SUCCESS
  }

  /** The session as the process sees it: a session that returns makes `main` exit. */
  function Exits(run: Run): Run {
    if run.ending.Returned? then Run(Exited(ExitStatus(run.ending.ret)), run.steps, run.out) else run
  }

  /** The whole program: the file the operand names is found as `disk`; the system's line
      limit makes the slots `maxLine` bytes. */
  function ProgramRun(opts: seq<Opt>, operands: seq<string>, errno0: int, maxLine: nat,
                      junk: byte, disk: FileState, rounds: seq<Round>): Run
    requires maxLine >= 2
  {
    match Parse(opts, operands, errno0)
    case Usage => Run(Exited(EXIT_FAILURE), [], [])
    case BadNumber => Run(Exited(EXIT_FAILURE), [], [])
    case Config(n, follow, _) =>
      Exits(if follow then FollowRun(n, maxLine, junk, disk, rounds) else TailRun(n, maxLine, junk, disk))
  }

  /** `main`. */
  method Program(opts: seq<Opt>, operands: seq<string>, errno0: int, maxLine: nat,
                 junk: byte, disk: FileState, rounds: seq<Round>) returns (run: Run)
    requires maxLine >= 2
    ensures run == ProgramRun(opts, operands, errno0, maxLine, junk, disk, rounds)
  {
    var args := ParseArgs(opts, operands, errno0);
    if !args.Config? {
      return Run(Exited(EXIT_FAILURE), [], []);
    }
    var res: Run;
    if args.follow {
      res := TailFollow(args.n, maxLine, junk, disk, rounds);
    } else {
      res := Tail(args.n, maxLine, junk, disk);
    }
    if res.ending.Returned? {
      return Run(Exited(ExitStatus(res.ending.ret)), res.steps, res.out);
    }
    return res;
  }

  // ---------------------------------------------------------------------------------------
  // properties of the argument checks

  /** The usage message is printed exactly for an unknown option or a number of operands
      other than one. */
  lemma ParseUsage(opts: seq<Opt>, operands: seq<string>, errno0: int)
    ensures Parse(opts, operands, errno0) == Usage <==> BadOpt in opts || |operands| != 1
  {
  }

  /** Without `-n` the last 1000 lines are shown. */
  lemma ParseDefault(opts: seq<Opt>, file: string, errno0: int)
    requires BadOpt !in opts && forall k :: 0 <= k < |opts| ==> !opts[k].NumberOpt?
    ensures Parse(opts, [file], errno0) == Config(1000, FollowOpt in opts, file)
  {
    LastNumberNone(opts);
  }

  lemma {:induction false} LastNumberNone(opts: seq<Opt>)
    requires forall k :: 0 <= k < |opts| ==> !opts[k].NumberOpt?
    ensures LastNumber(opts) == None
  {
    if opts != [] {
      LastNumberNone(opts[..|opts| - 1]);
    }
  }

  /** The last `-n` wins, whatever options come before it. */
  lemma {:induction false} LastNumberWins(before: seq<Opt>, s: string, after: seq<Opt>)
    requires forall k :: 0 <= k < |after| ==> !after[k].NumberOpt?
    ensures LastNumber(before + [NumberOpt(s)] + after) == Some(s)
    decreases |after|
  {
    var opts := before + [NumberOpt(s)] + after;
    if after != [] {
      var shorter := after[..|after| - 1];
      assert opts[..|opts| - 1] == before + [NumberOpt(s)] + shorter;
      LastNumberWins(before, s, shorter);
    }
  }

  /** `-n` followed by the decimal spelling of `v` is accepted exactly when `v` is a positive
      `long`, except LONG_MAX itself while a stale ERANGE sits in `errno` (it is never
      cleared before `strtol`). */
  lemma ParseNumber(before: seq<Opt>, v: int, after: seq<Opt>, file: string, errno0: int)
    requires forall k :: 0 <= k < |after| ==> !after[k].NumberOpt?
    requires BadOpt !in before + after
    ensures var opts := before + [NumberOpt(Utils.Decimal(v))] + after;
      Parse(opts, [file], errno0) ==
        if 0 < v <= LONG_MAX && !(v == LONG_MAX && errno0 == ERANGE)
        then Config(v, FollowOpt in opts, file)
        else BadNumber
  {
    var opts := before + [NumberOpt(Utils.Decimal(v))] + after;
    LastNumberWins(before, Utils.Decimal(v), after);
    Utils.KstrtolOfDecimal(v, DEFAULT_N, errno0);
    assert BadOpt !in opts by {
      assert forall o :: o in opts ==> o in before || o == NumberOpt(Utils.Decimal(v)) || o in after;
    }
  }

  // ---------------------------------------------------------------------------------------
  // properties of the exit status

  /** The process exits with EXIT_SUCCESS or EXIT_FAILURE, and with EXIT_SUCCESS exactly when
      the arguments were accepted and the session returned 0. */
  lemma ExitStatusOfProgram(opts: seq<Opt>, operands: seq<string>, errno0: int, maxLine: nat,
                            junk: byte, disk: FileState, rounds: seq<Round>)
    requires maxLine >= 2
    ensures var run := ProgramRun(opts, operands, errno0, maxLine, junk, disk, rounds);
      var args := Parse(opts, operands, errno0);
      && (run.ending.Exited? ==> run.ending.status == EXIT_SUCCESS || run.ending.status == EXIT_FAILURE)
      && !run.ending.Returned?
      && (run.ending == Exited(EXIT_SUCCESS) <==>
            args.Config? &&
            (if args.follow then FollowRun(args.n, maxLine, junk, disk, rounds)
             else TailRun(args.n, maxLine, junk, disk)).ending == Returned(0))
  {
  }
}
