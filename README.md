# ktail in Dafny

A model of the core of ktail, a small `tail` for one file: `ktail [-n N] [-f] <file>`
prints the last N lines of the file (1000 by default). With `-f` it then waits for the file
to change and copies what was appended, until SIGTERM or SIGINT arrives.

The model follows the C code of `src/ktail.c`, `src/main.c` and `src/utils.c`:

- `Ktail`: the entry points on a possibly-NULL `struct ktail_context`.
  - `Context` is a class with the slot array `data`, the counters `lineCounter` and `bytes`, and the stream `f`.
  - `File` is a class for an open `FILE *`: the file's bytes, whether reading past them fails, and the read position.
  - `ktail_read` is a `while` loop over `fgetc`, with its skip loop (`ScanLines`, `ScanStep`, `SkipLine`). `ktail_print` is the `for` loop over the window. `ktail_read_and_print` is the copy loop. `ktail_wait` is the backend's loop over the outcomes it meets.
- `LineScan` (scan.dfy): `ktail_read`'s loop as a function of the file's bytes (`Scan`). The loop is proved equal to it.
- `LineRing` (ring.dfy): the slots as values.
  - What storing a line does to them (`Store`, `StoreAll`, `Pending`, `Finish`).
  - Which slots `ktail_print` visits (`WindowSlots`) and what it writes (`Printed`).
- `Watch` (watch.dfy): what each of the three wait backends (kqueue, inotify, polling `stat`) makes of one outcome, and the setup outcomes of `ktail_wait_init`.
- `Utils`: the overflow test of `kmalloc_array`, the zeroing allocators, base-10 `strtol` as C11 section 7.22.1.4 describes it, and `kstrtol`.
- `Session`: `term_handler` and the two sessions `ktail()` and `ktail_with_follow()`.
  - A session is a `Run`: the calls it makes into src/ktail.c with the return codes it acts on (`Step`), what it writes to standard output, and how it ends.
  - The methods `Tail` and `TailFollow` follow the C control flow: the `goto out0/out1/out2` are breaks out of labelled blocks. Each is proved equal to a function of its inputs (`TailRun`, `FollowRun`).
- `SessionFacts`: what the sessions promise as a whole. This covers the cleanup on every path, the return code, the printed tail, and what the follow loop copies.
- `Cli`: `main`'s option loop, the checks on its arguments, and the exit status.

The environment is given as parameters:
- the file as each `fopen` finds it (`FileState`);
- the bytes `malloc` leaves in a fresh line buffer (`junk`);
- `MAX_LINE` (`maxLine`);
- what the wait backend observes in each pass of the follow loop;
- whether `stop` is set when the loop condition is tested (`Round.stop`).

`Round.stop` is the value that `Session.StopFlag.TermHandler` stores into `stop` once a signal has arrived.

The model keeps these behaviours of the code as they are written, each stated as a lemma:

- `LineScan.ScanTruncatesLongLine`: a line of `MAX_LINE` bytes or more is stored cut to `MAX_LINE - 1` bytes. The bytes its skip loop reads are not counted in `ctx->bytes`.
- `LineScan.ScanSwallowsNextLine`: a line of exactly `MAX_LINE - 1` bytes still enters the skip loop, which swallows the following line.
- `LineScan.ScanHangsAtEof`: the skip loop does not stop at EOF (`fgetc` keeps returning EOF, which is never `'\n'`). A long last line without a newline makes `ktail_read` spin forever (`Hangs`, `Spinning`), and so does a last line of exactly `MAX_LINE - 1` bytes followed by its newline: the newline finds the line full and enters the skip loop, which meets EOF.
- `LineRing.FragmentHiddenBeforeWrap`: a last line without a newline is terminated in its slot but not counted. Before the ring wraps it is never printed.
- `LineRing.FragmentShownFirstAfterWrap`: once the ring has wrapped, that fragment is printed first, in place of the oldest line.
- `SessionFacts.FollowRepeatsSkippedBytes`: the skipped bytes of a long line are not counted, so the byte count ends inside that line. The first reopen in follow mode seeks back there and prints the line's dropped end as a line of its own, although the file did not change. Byte `MAX_LINE - 1` of the line is counted but never shown.
- `Closed(true)` is the `fclose(NULL)` that `ktail_close` makes after a reopen whose `fopen` failed. `SessionFacts.NullClose` states when it happens.
- `Cli.ParseNumber`: `errno` is not cleared before `strtol`, so a stale ERANGE makes `kstrtol` refuse LONG_MAX.

`main` accepts only `-n`/`--number` and `-f`/`--follow`. Any other option prints the usage and exits with EXIT_FAILURE (src/main.c:131-132). ktail does not check that the file is a regular file.

## Model

| member | source | states |
|---|---|---|
| Utils.MulOverflows | src/utils.c:20-32 | the pre-test and division of `kmalloc_array` fire exactly when `nb * size` exceeds SIZE_MAX |
| Utils.PreTestSound | src/utils.c:22-31 | two factors below 2^32 never overflow, so skipping the division for them misses nothing |
| Utils.Kmalloc | src/utils.c:12-18 | fresh memory of the requested size, holding what the allocator left there |
| Utils.KmallocArray | src/utils.c:20-38 | `None` (the process ends in `err`) exactly when `nb * size` exceeds SIZE_MAX, otherwise a fresh buffer of `nb * size` bytes |
| Utils.Zero | src/utils.c:43 | after `memset` every byte of the buffer is 0 |
| Utils.Kzmalloc | src/utils.c:40-45 | fresh memory of the requested size, every byte 0 whatever the allocator left |
| Utils.KzmallocArray | src/utils.c:47-52 | `None` exactly on overflow, otherwise `nb * size` fresh bytes that are all 0 |
| Utils.Strtol10 | src/utils.c:64 | base-10 `strtol`: `end` within the string, the value a `long`, no digits gives value 0 with `end` at the start, ERANGE only with a clamped value |
| Utils.Kstrtol | src/utils.c:54-71 | -EINVAL for a NULL argument; the result is 0 or -EINVAL; `*res` changes only on success, and then holds `strtol`'s value |
| Utils.Strtol10Parts | src/utils.c:64-65 | for any text made of white space, a sign, digits and a tail: with no digits nothing is consumed; otherwise `end` is just past the digits and the value is the signed digits clamped with ERANGE |
| Utils.KstrtolRefusesNoDigits | src/utils.c:65-67 | white space and a sign with no digit after them are refused and `*res` is kept |
| Utils.KstrtolRefusesDigitFree | src/utils.c:65-67 | a string with no digit at all is refused and `*res` is kept |
| Utils.KstrtolRefusesTrailing | src/utils.c:65-67 | digits followed by anything but the end of the C string are refused and `*res` is kept |
| Utils.KstrtolAccepts | src/utils.c:64-70 | digits ending the C string are accepted with their signed value when it is a `long`, except LONG_MAX and LONG_MIN under a stale ERANGE; values outside `long` are refused |
| Utils.Strtol10OfDecimal | src/utils.c:64 | `strtol` reads the decimal spelling of any integer in full and clamps values outside `long` |
| Utils.KstrtolOfDecimal | src/utils.c:54-71 | `kstrtol` reads back the decimal spelling of every `long`, except LONG_MAX and LONG_MIN under a stale ERANGE; values outside `long` are refused |
| LineScan.Scan | src/ktail.c:229-258 | a pass that ends yields lines that fit a slot and a fragment that fits a slot, and counts at most one byte per input byte |
| LineScan.ScanFromBounds | src/ktail.c:229-258 | from any point, the scan only adds lines, each fitting a slot, and counts at most the bytes left |
| LineScan.ScanNewline | src/ktail.c:242-246 | a newline into a line with room completes it and is counted |
| LineScan.ScanByte | src/ktail.c:248 | any other byte into a line with room extends it and is counted |
| LineScan.ScanSkip | src/ktail.c:233-246 | a byte arriving at a full line is counted, then it and every byte through the next newline are dropped uncounted, and the cut line is completed |
| LineScan.ScanSkipDiverges | src/ktail.c:237-239 | a byte into a full line with no newline after it makes the scan diverge |
| LineScan.ScanOfShortLines | src/ktail.c:229-258 | with no line reaching `MAX_LINE - 1` bytes, the lines and fragment put back together are the input, and every byte is counted |
| LineScan.ScanTruncatesLongLine | src/ktail.c:233-246 | an overlong line is stored cut to `MAX_LINE - 1` bytes and only `MAX_LINE` of its bytes are counted |
| LineScan.ScanSwallowsNextLine | src/ktail.c:233-246 | a line of exactly `MAX_LINE - 1` bytes makes the skip loop swallow the next line |
| LineScan.ScanHangsAtEof | src/ktail.c:233-239 | a line of `MAX_LINE - 1` bytes followed by one more byte, its own newline included, and then no newline makes the scan diverge |
| LineRing.Terminate | src/ktail.c:243 | writing a line and a NUL into a slot keeps its size and makes the slot hold that line as a C string |
| LineRing.Store | src/ktail.c:243-248 | storing a completed line keeps the number of slots and the size of each (what it writes where is `StoreSlots`) |
| LineRing.Pending | src/ktail.c:248 | writing the bytes of the line in progress into its slot keeps the number and size of the slots (byte by byte it is `PendingPush`) |
| LineRing.Finish | src/ktail.c:255-257 | terminating the trailing fragment keeps the number and size of the slots (where the fragment shows is `FragmentHiddenBeforeWrap` and `FragmentShownFirstAfterWrap`) |
| LineRing.StoreSlots | src/ktail.c:243-248 | storing line `lc` sets slot `lc % n` to the line as a C string and changes no other slot |
| LineRing.StoreAll | src/ktail.c:243-248 | storing lines keeps the number and size of the slots |
| LineRing.StoreAllAppend | src/ktail.c:243-248 | storing one more line is one more `Store` after the others |
| LineRing.CompleteLine | src/ktail.c:242-246 | terminating the line in progress stores it as the next line |
| LineRing.PendingPush | src/ktail.c:248 | one more byte of the line in progress goes to the next position of its slot |
| LineRing.WindowSlots | src/ktail.c:291-295 | the window has `min(lc, n)` slots, and the `k`-th is the slot of line `lc - |w| + k` |
| LineRing.WindowSlotsOrder | src/ktail.c:291-295 | before wrapping the window is slots `0..lc-1`; after, it starts at `lc % n`; every entry is `(start + k) % n`; no slot appears twice |
| LineRing.SlotHoldsLine | src/ktail.c:243-248 | after storing lines, the slot of each of the last `n` lines holds that line as a C string |
| LineRing.WindowShowsLastLines | src/ktail.c:291-295 | the window shows exactly the last `min(L, n)` stored lines, oldest first |
| LineRing.PrintedSlotsJoined | src/ktail.c:294-295 | printing slots whose C strings are given lines writes those lines joined by newlines |
| LineRing.PrintedLastLines | src/ktail.c:284-297 | for NUL-free lines, `ktail_print` writes exactly the last `min(L, n)` lines, each followed by a newline |
| LineRing.FragmentHiddenBeforeWrap | src/ktail.c:255-257 | before the ring wraps, the terminated last fragment is not in the window |
| LineRing.FragmentShownFirstAfterWrap | src/ktail.c:255-257 | after the ring wraps, the last fragment is shown first, followed by the last `n - 1` lines |
| LineRing.SlotOfMod | src/ktail.c:243 | the slot of line `lc` is `lc % n` |
| Watch.WaitReturnsZeroIff | src/ktail.c:95-151 | `ktail_wait` returns 0 exactly when, after outcomes that keep it waiting, it meets one that wakes it (per backend, EINTR included) |
| Watch.WaitErrorCodes | src/ktail.c:95-151 | kqueue fails only with -ENOMEM, inotify with -EIO, polling with -EIO or -EINTR |
| Watch.FirstFromIsFirst | src/ktail.c:100-150 | the result is decided by the first outcome that decides |
| Ktail.File.Open | src/ktail.c:179 | a successful `fopen(..., "r")` gives a stream over the file's bytes and its fault, positioned at the start |
| Ktail.File.Getc | src/ktail.c:229 | `fgetc` gives the next unread byte and advances, or EOF when none is left |
| Ktail.File.Seek | src/ktail.c:202 | `fseek` to a negative offset fails and keeps the position; any other offset is taken |
| Ktail.Context.constructor | src/ktail.c:22-33 | counters 0, NULL stream, `n` slots of `maxLine` bytes holding what `malloc` left |
| Ktail.Context.PutByte | src/ktail.c:248 | the byte goes to position `off` of slot `line_counter % n` and the line in progress grows by it |
| Ktail.Context.PutNul | src/ktail.c:243 | the NUL at `off` stores the line in progress as the line `line_counter` |
| Ktail.Context.EndLine | src/ktail.c:242-246 | the newline branch stores the line in progress and moves on to the next line number |
| Ktail.SkipLine | src/ktail.c:237-239 | the skip loop reads through the next newline, or meets EOF exactly when there is none |
| Ktail.TakeByte | src/ktail.c:230-248 | a byte fetched into a line with room is counted; a newline ends the line and any other byte extends it; the loop state again agrees with the scan, one byte further on |
| Ktail.SkipRest | src/ktail.c:230-246 | a byte fetched into a full line is counted; the skip loop drops it and every byte through the next newline and ends the cut line, or the scan diverges when there is no newline |
| Ktail.ScanStep | src/ktail.c:229-248 | one round of the `fgetc` loop: EOF exactly when every byte is consumed, a hang only when the scan diverges, otherwise the scan advances with the loop state agreeing with it |
| Ktail.ScanLines | src/ktail.c:229-249 | the `fgetc` loop does what `Scan` says: hangs exactly when it diverges, otherwise stores its lines, counts its bytes and reaches EOF |
| Ktail.InitialSlots | src/ktail.c:22-33 | `ktail_init` leaves `n` slots, each of `maxLine` bytes |
| Ktail.Init | src/ktail.c:22-33 | the process ends exactly when `8 * n` overflows `size_t`; otherwise a fresh valid context with counters 0, NULL stream and `n` slots of `junk` |
| Ktail.Open | src/ktail.c:172-185 | NULL gives -EINVAL; a missing file gives -EIO and a NULL stream; otherwise 0 and a fresh stream at position 0 |
| Ktail.Close | src/ktail.c:210-217 | nothing happens for a NULL context; otherwise `fclose` is handed the stream, NULL or not |
| Ktail.Free | src/ktail.c:35-46 | nothing is released for a NULL context; otherwise `kfree` is called on each of the `n` slots, then on the slot table and the context |
| Ktail.WaitInit | src/ktail.c:48-86 | -EINVAL for NULL; 0 exactly when every setup call succeeds; -EIO exactly when kqueue's `open` fails; -ENOMEM otherwise |
| Ktail.WaitClose | src/ktail.c:156-170 | the backend is closed exactly when the context is not NULL |
| Ktail.Read | src/ktail.c:219-260 | NULL gives -EINVAL; it hangs exactly when `Scan` diverges; otherwise the slots hold the stored lines and the terminated fragment, both counters grow by what was scanned, and -EIO is returned exactly on a read error |
| Ktail.Print | src/ktail.c:284-297 | NULL writes nothing; otherwise it writes the slots of the window as C strings, each followed by a newline |
| Ktail.ReadAndPrint | src/ktail.c:262-282 | NULL gives -EINVAL; otherwise every unread byte is written in order, `bytes` grows by their number, and -EIO is returned exactly on a read error |
| Ktail.AsLong | src/ktail.c:202 | the `size_t` to `long` conversion keeps values up to LONG_MAX and makes larger ones negative |
| Ktail.Reopen | src/ktail.c:187-208 | NULL gives -EINVAL; a missing file gives -EIO and a NULL stream; otherwise a fresh stream at `bytes`, or -EINVAL when `bytes` is negative as a `long` |
| Ktail.Wait | src/ktail.c:88-154 | NULL gives -EINVAL; otherwise the first deciding outcome of the backend decides |
| Ktail.TailOfText | src/ktail.c:219-297 | a newline-terminated text without NUL or overlong lines, read and printed from fresh slots, gives exactly its last `min(L, n)` lines |
| Session.StopFlag.constructor | src/main.c:11 | the static `stop` flag starts at 0 |
| Session.StopFlag.TermHandler | src/main.c:30-34 | whatever the signal, `stop` becomes 1 |
| Session.FollowTurn | src/main.c:95-102 | one test of `stop` and one pass of wait, reopen and copy, as `OneTurn` describes; `bytes` grows by the copied bytes; the stream is NULL exactly after a failed `fopen` in the reopen |
| Session.FollowChanges | src/main.c:95-102 | the follow loop makes the calls and copies the bytes `FollowLoop` says; the stream is lost exactly when it ends on a failed `fopen` |
| Session.PassesFail | src/main.c:95-102 | in the loop's passes a call fails exactly when the loop failed, and a reopen fails with -EIO only as the last call |
| Session.LoopShape | src/main.c:95-102 | the loop is passes where every call succeeded, then, on `goto out2`, one failing pass; it stops only after seeing `stop` at its head |
| Session.TurnEnds | src/main.c:95-102 | a pass that leaves the loop makes at most three calls, and makes none when `stop` is set |
| Session.FollowRunShown | src/main.c:75-114 | once the tail is printed, the follow session is the loop from the byte count `ktail_read` reached, then the cleanup |
| Session.ReadAndShow | src/main.c:60-63 | `ktail_read` then `ktail_print` on fresh slots: hangs exactly when the scan diverges, -EIO on a read error, otherwise writes `TailText` |
| Session.Tail | src/main.c:50-73 | `ktail()` makes the calls, writes the output and returns or ends as `TailRun` describes |
| Session.TailRunRead | src/main.c:57-72 | on a file that `ktail_read` reads to its end: open, read, print, close, free and return 0, or on a read error stop after the read with -EIO |
| Session.TailFollow | src/main.c:75-114 | `ktail_with_follow()` makes the calls, writes the output and returns or ends as `FollowRun` describes |
| SessionFacts.TailCleansUp | src/main.c:50-73 | when `ktail()` returns, `ktail_free` was its last call, `ktail_close` came just before it exactly when the open succeeded, and it returns 0 exactly when no call failed, else -EIO |
| SessionFacts.FollowCleansUp | src/main.c:75-114 | the same for `ktail_with_follow()`, with `ktail_wait_close` just before `ktail_close` exactly when the watch was set up, and `fclose(NULL)` exactly when a reopen did not find the file |
| SessionFacts.PassesCalls | src/main.c:95-102 | the loop only waits, reopens and copies, fails exactly when one of those calls failed, and loses the stream exactly on a failed `fopen` |
| SessionFacts.FollowEndSteps | src/main.c:104-113 | after the loop, the session makes exactly the watch, stream and buffer cleanup calls, in that order |
| SessionFacts.TailPrintsLastLines | src/main.c:50-73 | `ktail()` on NUL-free lines shorter than `MAX_LINE - 1` returns 0 and prints exactly the last `min(L, n)` lines |
| SessionFacts.FollowStreamsAppended | src/main.c:95-102 | on a file that only grows, where each round's wait wakes at the byte count that round starts from, the loop makes one successful pass per change and copies each appended byte exactly once |
| SessionFacts.GrowsStep | src/main.c:95-102 | a pass that finds the file grown copies what follows the byte count and hands on the new count |
| SessionFacts.FollowRepeatsSkippedBytes | src/main.c:88-102 | after a long line, the first reopen seeks back into it and prints its dropped end as a line of its own, although the file did not change; byte `MAX_LINE - 1` of the line is never shown |
| Cli.Parse | src/main.c:123-142 | accepted settings have exactly one operand, that operand as the file, a positive `long` count, and `-f` exactly when it was given |
| Cli.ParseArgs | src/main.c:116-142 | the option loop and the checks after it decide what `Parse` says |
| Cli.ExitStatus | src/main.c:151 | EXIT_SUCCESS exactly when the session returned 0, EXIT_FAILURE otherwise |
| Cli.Program | src/main.c:116-152 | `main` runs as `ProgramRun` describes |
| Cli.ParseUsage | src/main.c:131-136 | the usage message is printed exactly for an unknown option or a number of operands other than one |
| Cli.ParseDefault | src/main.c:119 | without `-n` the count is 1000 |
| Cli.LastNumberWins | src/main.c:125-127 | the last `-n` wins |
| Cli.ParseNumber | src/main.c:140-141 | the last `-n v` is accepted as the count exactly when `v` is a positive `long`, except LONG_MAX under a stale ERANGE; otherwise the number is refused |
| Cli.ExitStatusOfProgram | src/main.c:151 | the process exits with EXIT_SUCCESS or EXIT_FAILURE, and with EXIT_SUCCESS exactly when the arguments were accepted and the session returned 0 |

## Left out

- Writing to standard output: printing is modelled as the bytes written. `fflush` is not modelled.
- Logging through `perr`, `skperr` and `print_err` is dropped, including the warning about an overlong line. `serr` (src/main.c:141) is taken to end the process with EXIT_FAILURE; its definition is not part of this model.
- Allocation failure is not modelled. When `malloc` returns NULL in `kmalloc`, `kmalloc_array`, `kzmalloc` or `ktail_init`, the process exits through `err_errno`.
- The memory `malloc` returns for a line buffer is modelled as one uniform byte `junk` rather than arbitrary contents.
- Ktail.Context: `bytes` and `lineCounter` are unbounded naturals. The C `size_t` counters would wrap after 2^64 bytes or lines, and so would `start + lines` in `ktail_print`.
- A read fault is modelled only after the readable bytes of the file (`FileState.fault`). An error in the middle of the file is not modelled.
- Ktail.File.Seek: `fseek` fails only on a negative offset. Other failures of `fseek` are not modelled.
- The wait outcomes of each round are given as free sequences. They are not tied to the `disk` that the same round's reopen sees.
- The sleep interval of the polling backend and the time it spends are not modelled. `SLEEP_INTERVALL` is 500 (src/ktail.c:16) and is passed to `usleep` (src/ktail.c:144), which counts microseconds, so the backend polls every 0.5 ms rather than every 500 ms.
- src/ktail.h:16 declares `data` as `char *`, while src/ktail.c:27 and :243-248 use it as `char **`, a table of line buffers. The model follows the use: `data` is an array of slots.
- Ktail.WaitInit: the descriptors, `kqueue` change record and inotify watch it creates are not modelled, only its result. `ktail_with_follow` ignores that result, so the sessions record the call as the step `WatchSetUp` and do not take the setup outcome as a parameter.
- Ktail.WaitClose and Ktail.Free: only whether they act, and how many buffers `ktail_free` hands to `kfree`, are modelled. The descriptors closed and the memory released are not.
- Ktail.Close, Ktail.Free, Ktail.WaitInit and Ktail.WaitClose are not called by `Session.Tail` and `Session.TailFollow`. The sessions record those calls directly as the steps `Closed`, `Freed`, `WatchSetUp` and `WatchClosed`, so no proof ties a method's contract to the step recorded for it.
- SessionFacts.FollowCleansUp and Cli.ExitStatusOfProgram: after a reopen whose `fopen` failed, `ktail_close` hands NULL to `fclose` (src/ktail.c:216, reached from src/main.c:109). In C that is undefined behaviour, and glibc dereferences the pointer. The model takes the call to return (`Closed(true)`), so on that path the promised `ktail_free`, the -EIO and EXIT_FAILURE hold only if the process survives the call.
- Argument parsing by `getopt_long` is not modelled. The options reach `main` as a sequence of `Opt` values. The quirk that `--follow` is declared with `required_argument` (src/main.c:15) is not modelled: `--follow` is treated as a flag.
- `setup_signals`: the failure of `sigaction`, which ends the process through `skerr`, is not modelled. Signal delivery is not modelled either. The `stop` flag is an input per round (`Round.stop`), read where the loop tests it.
- `config.n` is a `size_t` assigned from a positive `long`, so no wrap is possible. It is modelled as the natural `n`.
- `MAX_LINE` is `sysconf(_SC_LINE_MAX) + 1`, a parameter `maxLine >= 2` here.
- The file name operand is not used to find the file. The file is given as the parameter `disk` (and `Round.disk` for each reopen).
