/** The entry points of src/ktail.c on a `struct ktail_context`: the ring of `n` line slots of
    `MAX_LINE` bytes, the line and byte counters, and the `FILE *` being read. Every entry point
    takes a possibly-NULL context and, given NULL, returns -EINVAL (or just returns). */
module Ktail {
  import opened Types
  import opened LineScan
  import opened LineRing
  import opened Watch
  import Utils

  const EOF: int := -1

  /** `sizeof(char *)` on LP64. */
  const PTR_SIZE: nat := 8

  /** The file named on the command line, as `fopen` finds it: missing (fopen fails) or
      present with its bytes; `fault` says whether reading past those bytes fails with a read
      error rather than reaching a clean end of file. */
  datatype FileState = Missing | Present(content: seq<byte>, fault: bool)

  /** The bytes of `content` from offset `pos` on: none once `pos` is at or past its end. */
  function From(content: seq<byte>, pos: nat): (r: seq<byte>)
    ensures |r| == if pos <= |content| then |content| - pos else 0
  {
    if pos <= |content| then content[pos..] else []
  }

  /** An open `FILE *` in read mode. */
  class File {
    const content: seq<byte>
    const fault: bool
    var pos: nat

    /** `fopen(path, "r")` on a file that exists. */
    constructor Open(content: seq<byte>, fault: bool)
      ensures this.content == content && this.fault == fault && pos == 0
    {
      this.content := content;
      this.fault := fault;
      pos := 0;
    }

    /** The bytes `fgetc` still has to deliver. */
    function Unread(): seq<byte>
      reads this
    {
      From(content, pos)
    }

    /** `ferror(f)`: a read has hit the fault that follows the readable bytes. */
    predicate Error()
      reads this
    {
      fault && pos >= |content|
    }

    /** `fgetc(f)`: the next byte, or EOF once none is left (on a clean end or an error). */
    method Getc() returns (c: int)
      modifies this
      ensures old(Unread()) == [] ==> c == EOF && pos == old(pos)
      ensures old(Unread()) != [] ==> c == old(Unread())[0] as int && Unread() == old(Unread())[1..]
    {
      if pos < |content| {
        c := content[pos] as int;
        pos := pos + 1;
      } else {
        c := EOF;
      }
    }

    /** `fseek(f, offset, SEEK_SET)`: a negative offset fails with EINVAL and leaves the
        position alone; any other is accepted, past the end of the file included. */
    method Seek(offset: int) returns (rc: int)
      modifies this
      ensures offset < 0 ==> rc == -1 && pos == old(pos)
      ensures offset >= 0 ==> rc == 0 && pos == offset
    {
      if offset < 0 {
        rc := -1;
      } else {
        pos := offset;
        rc := 0;
      }
    }
  }

  /** `struct ktail_context` together with `config.n` and `MAX_LINE`. */
  class Context {
    const n: nat
    const maxLine: nat
    /** `ctx->data`: slot `s` is the `MAX_LINE`-byte buffer `ctx->data[s]`. */
    const data: array<seq<byte>>
    var lineCounter: nat
    var bytes: nat
    var f: File?

    ghost predicate Valid()
      reads data
    {
      n > 0 && maxLine >= 2 && data.Length == n && Shaped(data[..], maxLine)
    }

    /** The context `ktail_init` builds: zero-filled by `kzmalloc` (so both counters are 0 and
        `f` is NULL), with `n` slots of `maxLine` bytes whose contents `kmalloc` left as the
        byte `junk`. */
    constructor (n: nat, maxLine: nat, junk: byte)
      requires n > 0 && maxLine >= 2
      ensures Valid() && fresh(data)
      ensures this.n == n && this.maxLine == maxLine
      ensures lineCounter == 0 && bytes == 0 && f == null
      ensures forall s :: 0 <= s < n ==> data[s] == seq(maxLine, _ => junk)
    {
      this.n := n;
      this.maxLine := maxLine;
      data := new seq<byte>[n](_ => seq(maxLine, _ => junk));
      lineCounter := 0;
      bytes := 0;
      f := null;
    }

    /** `ctx->data[ctx->line_counter % n][off] = c` while the current line holds `partial`:
        the line in progress grows by `c`. */
    method PutByte(off: nat, c: byte, ghost base: seq<seq<byte>>, ghost partial: seq<byte>)
      requires Valid() && |base| == n && Shaped(base, maxLine) && off == |partial| && off + 1 < maxLine
      requires data[..] == Pending(base, maxLine, lineCounter, partial)
      modifies data
      ensures Valid()
      ensures data[..] == Pending(base, maxLine, lineCounter, partial + [c])
    {
      var slot := lineCounter % n;
      SlotOfMod(lineCounter, n);
      PendingPush(base, maxLine, lineCounter, partial, c);
      data[slot] := data[slot][off := c];
    }

    /** `ctx->data[ctx->line_counter % n][off] = '\0'` while the current line holds `partial`:
        the line is stored as line number `line_counter`. */
    method PutNul(off: nat, ghost base: seq<seq<byte>>, ghost partial: seq<byte>)
      requires Valid() && |base| == n && Shaped(base, maxLine) && off == |partial| && off < maxLine
      requires data[..] == Pending(base, maxLine, lineCounter, partial)
      modifies data
      ensures Valid()
      ensures data[..] == Store(base, maxLine, lineCounter, partial)
    {
      var slot := lineCounter % n;
      SlotOfMod(lineCounter, n);
      PendingStore(base, maxLine, lineCounter, partial);
      data[slot] := data[slot][off := NUL];
    }

    /** The newline branch of `ktail_read` after `lines` have been stored from line number
        `lc0` on: terminate the line in progress, which holds `partial`, so that it is stored
        as the next line, and move on to the next line number. */
    method EndLine(off: nat, ghost d0: seq<seq<byte>>, ghost lc0: nat, ghost lines: seq<seq<byte>>,
                   ghost partial: seq<byte>)
      requires Valid() && |d0| == n && Shaped(d0, maxLine) && Fits(lines, maxLine)
      requires off == |partial| < maxLine && lineCounter == lc0 + |lines|
      requires data[..] == Pending(StoreAll(d0, maxLine, lc0, lines), maxLine, lineCounter, partial)
      modifies this, data
      ensures Valid() && bytes == old(bytes) && f == old(f) && Fits(lines + [partial], maxLine)
      ensures lineCounter == old(lineCounter) + 1
      ensures data[..] == Pending(StoreAll(d0, maxLine, lc0, lines + [partial]), maxLine, lineCounter, [])
    {
      PutNul(off, StoreAll(d0, maxLine, lc0, lines), partial);
      CompleteLine(d0, maxLine, lc0, lines, partial);
      lineCounter := lineCounter + 1;
    }
  }

  /** The skip loop of `ktail_read`, entered with `input[i..]` unread: it reads up to and
      including the next newline and returns it. When EOF comes first it returns EOF; the C
      loop would instead go on calling `fgetc` forever, since EOF is never '\n'. */
  method SkipLine(f: File, ghost input: seq<byte>, ghost i: nat) returns (c: int, ghost j: nat)
    requires i <= |input| && f.Unread() == input[i..]
    modifies f
    ensures c == EOF <==> NextNewline(input, i).None?
    ensures c != EOF ==> c == NL as int && NextNewline(input, i) == Some(j) && f.Unread() == input[j + 1..]
  {
    j := i;
    c := f.Getc();
    while c != EOF && c != NL as int
      invariant i <= j <= |input| && forall k :: i <= k < j ==> input[k] != NL
      invariant c == EOF ==> j == |input|
      invariant c != EOF ==> j < |input| && c == input[j] as int && f.Unread() == input[j + 1..]
      decreases |input| - j
    {
      j := j + 1;
      c := f.Getc();
    }
    if c == EOF {
      NextNewlineNone(input, i);
    } else {
      NextNewlineAt(input, i, j);
    }
  }

  /** The slots as `ktail_init` leaves them: `n` buffers of `maxLine` bytes holding `junk`. */
  function InitialSlots(n: nat, maxLine: nat, junk: byte): (slots: seq<seq<byte>>)
    ensures |slots| == n && Shaped(slots, maxLine)
  {
    seq(n, _ => seq(maxLine, _ => junk))
  }

  /** `ktail_init`. `None` is the path where `kmalloc_array` detects that `n` pointers do not
      fit in `size_t` and `err` ends the process. */
  method Init(n: nat, maxLine: nat, junk: byte) returns (ctx: Option<Context>)
    requires 0 < n <= SIZE_MAX && maxLine >= 2
    ensures ctx.None? <==> PTR_SIZE * n > SIZE_MAX
    ensures ctx.Some? ==> fresh(ctx.value) && fresh(ctx.value.data) && ctx.value.Valid()
    ensures ctx.Some? ==> ctx.value.n == n && ctx.value.maxLine == maxLine
    ensures ctx.Some? ==> ctx.value.lineCounter == 0 && ctx.value.bytes == 0 && ctx.value.f == null
    ensures ctx.Some? ==> ctx.value.data[..] == InitialSlots(n, maxLine, junk)
  {
    if Utils.MulOverflows(PTR_SIZE, n) {
      return None;
    }
    var c := new Context(n, maxLine, junk);
    ctx := Some(c);
  }

  /** `ktail_open`. */
  method Open(ctx: Context?, disk: FileState) returns (rc: int)
    modifies ctx
    ensures ctx == null ==> rc == -EINVAL
    ensures ctx != null ==> ctx.lineCounter == old(ctx.lineCounter) && ctx.bytes == old(ctx.bytes)
    ensures ctx != null && disk.Missing? ==> rc == -EIO && ctx.f == null
    ensures ctx != null && disk.Present? ==>
      && rc == 0 && ctx.f != null && fresh(ctx.f)
      && ctx.f.content == disk.content && ctx.f.fault == disk.fault && ctx.f.pos == 0
  {
    if ctx == null {
      return -EINVAL;
    }
    if disk.Missing? {
      ctx.f := null;
      return -EIO;
    }
    ctx.f := new File.Open(disk.content, disk.fault);
    rc := 0;
  }

  /** `ktail_close`: `fclose(ctx->f)`. The result is `None` when the context is NULL and
      nothing is closed, and otherwise says whether `fclose` was handed a NULL stream. */
  method Close(ctx: Context?) returns (nullStream: Option<bool>)
    ensures nullStream.None? <==> ctx == null
    ensures ctx != null ==> nullStream == Some(ctx.f == null)
  {
    if ctx == null {
      return None;
    }
    nullStream := Some(ctx.f == null);
  }

  /** `ktail_free`: nothing for a NULL context; otherwise the memory goes back to the
      allocator, `released` counting the `kfree` calls: one per slot, then the slot table and
      the context itself. */
  method Free(ctx: Context?) returns (released: nat)
    ensures ctx == null ==> released == 0
    ensures ctx != null ==> released == ctx.n + 2
  {
    if ctx == null {
      return 0;
    }
    released := ctx.n + 2;
  }

  /** `ktail_wait_init`: -EINVAL for a NULL context; otherwise 0 when the backend is set up,
      -EIO when kqueue's `open()` of the file fails, and -ENOMEM when `kqueue()`,
      `inotify_init()` or `inotify_add_watch()` fails. */
  method WaitInit(ctx: Context?, setup: SetupObs) returns (rc: int)
    ensures ctx == null ==> rc == -EINVAL
    ensures ctx != null ==> (rc == 0 <==> SetUp(setup))
    ensures ctx != null ==> (rc == -EIO <==> setup.KqueueSetup? && !setup.fileOpen)
    ensures ctx != null ==> rc == 0 || rc == -EIO || rc == -ENOMEM
  {
    if ctx == null {
      return -EINVAL;
    }
    match setup {
      case KqueueSetup(fileOpen, queued) =>
        if !fileOpen {
          return -EIO;
        }
        if !queued {
          return -ENOMEM;
        }
      case InotifySetup(inited, watched) =>
        if !inited || !watched {
          return -ENOMEM;
        }
      case PollSetup =>
    }
    rc := 0;
  }

  /** `ktail_wait_close`: nothing for a NULL context; otherwise the backend's watch is torn
      down: kqueue closes its queue and the watched file, inotify removes its watch and closes
      its descriptor, and polling has nothing to close. */
  method WaitClose(ctx: Context?) returns (closed: bool)
    ensures closed <==> ctx != null
  {
    if ctx == null {
      return false;
    }
    closed := true;
  }

  /** What `ktail_read` does: it returns `rc`, or it never returns. */
  datatype ReadOutcome = Returns(rc: int) | Hangs

  /** What the read loop of `ktail_read` has recorded after consuming `input[..i]` of the
      bytes `input` that were unread on entry: the scan from position `i`, with the lines
      completed so far, the bytes `partial` of the current line (`off == |partial|`) and the
      bytes counted so far, ends as the whole scan does; the counters have grown by those lines
      and bytes; the lines are stored in their slots and `partial` is written into slot
      `line_counter % n`. */
  ghost predicate Recorded(ctx: Context, f: File, input: seq<byte>, d0: seq<seq<byte>>, lc0: nat, b0: nat,
                           i: nat, lines: seq<seq<byte>>, partial: seq<byte>, counted: nat, off: nat)
    reads ctx, ctx.data
  {
    && ctx.Valid() && ctx.f == f && |d0| == ctx.n && Shaped(d0, ctx.maxLine)
    && off == |partial| < ctx.maxLine && Fits(lines, ctx.maxLine)
    && ctx.lineCounter == lc0 + |lines| && ctx.bytes == b0 + counted
    && ScanFrom(input, ctx.maxLine, i, lines, partial, counted) == Scan(input, ctx.maxLine)
    && ctx.data[..] == Pending(StoreAll(d0, ctx.maxLine, lc0, lines), ctx.maxLine, ctx.lineCounter, partial)
  }

  /** The read loop at its head: what it has recorded, with `input[i..]` still unread. */
  ghost predicate Scanning(ctx: Context, f: File, input: seq<byte>, d0: seq<seq<byte>>, lc0: nat, b0: nat,
                           i: nat, lines: seq<seq<byte>>, partial: seq<byte>, counted: nat, off: nat)
    reads ctx, ctx.data, f
  {
    && Recorded(ctx, f, input, d0, lc0, b0, i, lines, partial, counted, off)
    && i <= |input| && f.Unread() == input[i..]
  }

  /** The body of the read loop for a byte `c == input[i]` fetched into a line that still has
      room: it is counted, and a newline ends the line while any other byte extends it. */
  method TakeByte(ctx: Context, f: File, c: byte, ghost input: seq<byte>, ghost d0: seq<seq<byte>>,
                  ghost lc0: nat, ghost b0: nat, ghost i: nat, ghost lines: seq<seq<byte>>,
                  ghost partial: seq<byte>, ghost counted: nat, off: nat)
    returns (off': nat, ghost i': nat, ghost lines': seq<seq<byte>>, ghost partial': seq<byte>,
             ghost counted': nat)
    requires Recorded(ctx, f, input, d0, lc0, b0, i, lines, partial, counted, off)
    requires off < ctx.maxLine - 1 && i < |input| && input[i] == c && f.Unread() == input[i + 1..]
    modifies ctx, ctx.data
    ensures i < i' && Scanning(ctx, f, input, d0, lc0, b0, i', lines', partial', counted', off')
  {
    ctx.bytes := ctx.bytes + 1;
    if c == NL {
      ScanNewline(input, ctx.maxLine, i, lines, partial, counted);
      ctx.EndLine(off, d0, lc0, lines, partial);
      off', i', lines', partial', counted' := 0, i + 1, lines + [partial], [], counted + 1;
    } else {
      ScanByte(input, ctx.maxLine, i, lines, partial, counted);
      ctx.PutByte(off, c, StoreAll(d0, ctx.maxLine, lc0, lines), partial);
      off', i', lines', partial', counted' := off + 1, i + 1, lines, partial + [c], counted + 1;
    }
  }

  /** The body of the read loop for a byte `input[i]` fetched into a full line: it is counted,
      the skip loop drops it and everything up to the next newline, and the full line ends.
      `hung` when the skip loop meets EOF. */
  method SkipRest(ctx: Context, f: File, ghost input: seq<byte>, ghost d0: seq<seq<byte>>,
                  ghost lc0: nat, ghost b0: nat, ghost i: nat, ghost lines: seq<seq<byte>>,
                  ghost partial: seq<byte>, ghost counted: nat, off: nat)
    returns (hung: bool, off': nat, ghost i': nat, ghost lines': seq<seq<byte>>, ghost partial': seq<byte>,
             ghost counted': nat)
    requires Recorded(ctx, f, input, d0, lc0, b0, i, lines, partial, counted, off)
    requires off == ctx.maxLine - 1 && i < |input| && f.Unread() == input[i + 1..]
    modifies ctx, ctx.data, f
    ensures hung ==> ctx.Valid() && ctx.f == f && Scan(input, ctx.maxLine) == Diverges
    ensures !hung ==> i < i' && Scanning(ctx, f, input, d0, lc0, b0, i', lines', partial', counted', off')
  {
    ctx.bytes := ctx.bytes + 1;
    var c, j := SkipLine(f, input, i + 1);
    if c == EOF {
      ScanSkipDiverges(input, ctx.maxLine, i, lines, partial, counted);
      return true, off, i, lines, partial, counted;
    }
    ScanSkip(input, ctx.maxLine, i, j, lines, partial, counted);
    ctx.EndLine(off, d0, lc0, lines, partial);
    hung, off', i', lines', partial', counted' := false, 0, j + 1, lines + [partial], [], counted + 1;
  }

  /** One round of the read loop: fetch a byte and deal with it. `eof` when `fgetc` returns
      EOF, which happens exactly when every byte has been consumed; `hung` when the byte fills a
      full line and the skip loop meets EOF; otherwise the scan has advanced. */
  method ScanStep(ctx: Context, f: File, ghost input: seq<byte>, ghost d0: seq<seq<byte>>, ghost lc0: nat,
                  ghost b0: nat, ghost i: nat, ghost lines: seq<seq<byte>>, ghost partial: seq<byte>,
                  ghost counted: nat, off: nat)
    returns (eof: bool, hung: bool, off': nat, ghost i': nat, ghost lines': seq<seq<byte>>,
             ghost partial': seq<byte>, ghost counted': nat)
    requires Scanning(ctx, f, input, d0, lc0, b0, i, lines, partial, counted, off)
    modifies ctx, ctx.data, f
    ensures eof ==> !hung && i' == |input| && Scanning(ctx, f, input, d0, lc0, b0, i', lines', partial', counted', off')
    ensures hung ==> !eof && ctx.Valid() && ctx.f == f && Scan(input, ctx.maxLine) == Diverges
    ensures !eof && !hung ==>
      i < i' && Scanning(ctx, f, input, d0, lc0, b0, i', lines', partial', counted', off')
  {
    var c := f.Getc();
    if c == EOF {
      return true, false, off, i, lines, partial, counted;
    }
    assert c == input[i] as int;
    eof := false;
    if off == ctx.maxLine - 1 {
      hung, off', i', lines', partial', counted' := SkipRest(ctx, f, input, d0, lc0, b0, i, lines, partial, counted, off);
    } else {
      hung := false;
      off', i', lines', partial', counted' := TakeByte(ctx, f, c as byte, input, d0, lc0, b0, i, lines, partial, counted, off);
    }
  }

  /** The `while ((c = fgetc(ctx->f)) != EOF)` loop of `ktail_read`, with `off` as its result.
      It follows the scan of the unread bytes: `hung` when the skip loop meets EOF, and
      otherwise the stream is drained, the counters have grown by the completed lines and the
      counted bytes, the lines are stored in their slots and the trailing fragment's bytes sit
      unterminated in slot `line_counter % n`. */
  method ScanLines(ctx: Context) returns (hung: bool, off: nat, ghost lines: seq<seq<byte>>, ghost partial: seq<byte>)
    requires ctx.Valid() && ctx.f != null
    modifies ctx, ctx.data, ctx.f
    ensures ctx.Valid() && ctx.f == old(ctx.f)
    ensures hung <==> Scan(old(ctx.f.Unread()), ctx.maxLine).Diverges?
    ensures !hung ==>
      && ctx.bytes >= old(ctx.bytes)
      && Scan(old(ctx.f.Unread()), ctx.maxLine) == Scanned(lines, partial, ctx.bytes - old(ctx.bytes))
      && ctx.f.Unread() == [] && off == |partial| < ctx.maxLine && Fits(lines, ctx.maxLine)
      && ctx.lineCounter == old(ctx.lineCounter) + |lines|
      && ctx.data[..] == Pending(StoreAll(old(ctx.data[..]), ctx.maxLine, old(ctx.lineCounter), lines),
                                 ctx.maxLine, ctx.lineCounter, partial)
  {
    var f := ctx.f;
    ghost var input, d0, lc0, b0 := f.Unread(), ctx.data[..], ctx.lineCounter, ctx.bytes;
    ghost var i: nat, counted: nat := 0, 0;
    lines, partial := [], [];
    off := 0;
    PendingEmpty(d0, ctx.maxLine, lc0);
    while true
      invariant Scanning(ctx, f, input, d0, lc0, b0, i, lines, partial, counted, off)
      decreases |input| - i
    {
      var eof;
      eof, hung, off, i, lines, partial, counted := ScanStep(ctx, f, input, d0, lc0, b0, i, lines, partial, counted, off);
      if eof {
        break;
      }
      if hung {
        return;
      }
    }
    assert i == |input| && ctx.f.Unread() == input[i..] == [];
    assert ScanFrom(input, ctx.maxLine, i, lines, partial, counted) == Scanned(lines, partial, counted);
  }

  /** `ktail_read`. The scan of the unread bytes decides everything: when its skip loop meets
      EOF the call never returns; otherwise the counters grow by the completed lines and the
      counted bytes, every completed line is stored in its slot, and the trailing fragment is
      NUL-terminated in slot `line_counter % n` -- unless the stream ended on a read error,
      which returns -EIO and leaves the fragment's bytes unterminated. */
  method Read(ctx: Context?) returns (out: ReadOutcome)
    requires ctx != null ==> ctx.Valid() && ctx.f != null
    modifies if ctx == null then {} else {ctx, ctx.data, ctx.f}
    ensures ctx == null ==> out == Returns(-EINVAL)
    ensures ctx != null ==> ctx.Valid() && ctx.f == old(ctx.f)
    ensures ctx != null ==>
      var pass := Scan(old(ctx.f.Unread()), ctx.maxLine);
      && (out == Hangs <==> pass.Diverges?)
      && (pass.Scanned? ==>
        var stored := StoreAll(old(ctx.data[..]), ctx.maxLine, old(ctx.lineCounter), pass.lines);
        && ctx.lineCounter == old(ctx.lineCounter) + |pass.lines|
        && ctx.bytes == old(ctx.bytes) + pass.counted
        && ctx.f.Unread() == []
        && out == Returns(if ctx.f.fault then -EIO else 0)
        && ctx.data[..] == if ctx.f.fault then Pending(stored, ctx.maxLine, ctx.lineCounter, pass.partial)
                           else Finish(stored, ctx.maxLine, ctx.lineCounter, pass.partial))
  {
    if ctx == null {
      return Returns(-EINVAL);
    }
    ghost var d0, lc0 := ctx.data[..], ctx.lineCounter;
    var hung, off, lines, partial := ScanLines(ctx);
    if hung {
      return Hangs;
    }
    if ctx.f.Error() {
      return Returns(-EIO);
    }
    // deal with the last line
    ghost var stored := StoreAll(d0, ctx.maxLine, lc0, lines);
    if off != 0 {
      ctx.PutNul(off, stored, partial);
    } else {
      PendingEmpty(stored, ctx.maxLine, ctx.lineCounter);
    }
    out := Returns(0);
  }

  /** `ktail_print`: standard output receives `out`, every slot of the window as a C string
      followed by a newline. */
  method Print(ctx: Context?) returns (out: seq<byte>)
    requires ctx != null ==> ctx.Valid()
    ensures ctx == null ==> out == []
    ensures ctx != null ==> out == Printed(ctx.data[..], ctx.lineCounter)
  {
    if ctx == null {
      return [];
    }
    var n, lc := ctx.n, ctx.lineCounter;
    var lines := if lc >= n then n else lc;
    var start := if lc >= n then lc else 0;
    ghost var slots, w := ctx.data[..], WindowSlots(lc, n);
    out := [];
    var i := start;
    while i < start + lines
      invariant start <= i <= start + lines
      invariant out == PrintedSlots(slots, w[..i - start])
    {
      var slot := i % n;
      WindowSlotMod(lc, n, i);
      PrintedSlotsSnoc(slots, w, i - start);
      assert ctx.data[slot] == slots[w[i - start]];
      out := out + CStr(ctx.data[slot]) + [NL];
      i := i + 1;
    }
    assert w[..i - start] == w;
  }

  /** `ktail_read_and_print`: every byte still unread is written to standard output, in order,
      and counted; the result is -EIO exactly when the stream ends on a read error. */
  method ReadAndPrint(ctx: Context?) returns (rc: int, out: seq<byte>)
    requires ctx != null ==> ctx.f != null
    modifies if ctx == null then {} else {ctx, ctx.f}
    ensures ctx == null ==> rc == -EINVAL && out == []
    ensures ctx != null ==>
      && ctx.f == old(ctx.f) && ctx.lineCounter == old(ctx.lineCounter)
      && out == old(ctx.f.Unread()) && ctx.f.Unread() == []
      && ctx.bytes == old(ctx.bytes) + |out|
      && rc == if ctx.f.fault then -EIO else 0
  {
    if ctx == null {
      return -EINVAL, [];
    }
    var f := ctx.f;
    ghost var input := f.Unread();
    out := [];
    while true
      invariant ctx.f == f && out + f.Unread() == input
      invariant ctx.bytes == old(ctx.bytes) + |out| && ctx.lineCounter == old(ctx.lineCounter)
      decreases |f.Unread()|
    {
      ghost var before := f.Unread();
      var c := f.Getc();
      if c == EOF {
        assert f.Unread() == [] && f.pos >= |f.content|;
        break;
      }
      assert before == [c as byte] + f.Unread();
      ctx.bytes := ctx.bytes + 1;
      out := out + [c as byte];
    }
    assert out == input && (f.Error() <==> f.fault);
    if f.Error() {
      return -EIO, out;
    }
    rc := 0;
  }

  /** The C conversion of a `size_t` to the `long` offset of `fseek` on LP64: modulo 2^64 into
      the range of `long`. */
  function AsLong(x: nat): (r: int)
    ensures LONG_MIN <= r <= LONG_MAX
    ensures x <= LONG_MAX ==> r == x
    ensures LONG_MAX < x <= SIZE_MAX ==> r < 0
  {
    if x <= LONG_MAX then x
    else if x <= SIZE_MAX then x - (SIZE_MAX + 1)
    else AsLong(x - (SIZE_MAX + 1))
  }

  /** `ktail_reopen`: close the stream, open the file afresh and seek to the byte count. Seeking
      fails with -EINVAL when the count does not fit a `long`, as its conversion is negative. */
  method Reopen(ctx: Context?, disk: FileState) returns (rc: int)
    modifies ctx
    ensures ctx == null ==> rc == -EINVAL
    ensures ctx != null ==> ctx.lineCounter == old(ctx.lineCounter) && ctx.bytes == old(ctx.bytes)
    ensures ctx != null && disk.Missing? ==> rc == -EIO && ctx.f == null
    ensures ctx != null && disk.Present? ==>
      && ctx.f != null && fresh(ctx.f)
      && ctx.f.content == disk.content && ctx.f.fault == disk.fault
      && rc == (if AsLong(ctx.bytes) < 0 then -EINVAL else 0)
      && ctx.f.pos == (if AsLong(ctx.bytes) < 0 then 0 else AsLong(ctx.bytes))
      && (ctx.bytes <= LONG_MAX ==> rc == 0 && ctx.f.pos == ctx.bytes)
      && (LONG_MAX < ctx.bytes <= SIZE_MAX ==> rc == -EINVAL && ctx.f.pos == 0)
  {
    if ctx == null {
      return -EINVAL;
    }
    // fclose(ctx->f): the old stream is dropped
    if disk.Missing? {
      ctx.f := null;
      return -EIO;
    }
    var f := new File.Open(disk.content, disk.fault);
    ctx.f := f;
    var sr := f.Seek(AsLong(ctx.bytes));
    if sr != 0 {
      return -EINVAL;
    }
    rc := 0;
  }

  /** `ktail_wait` on the outcomes `obs` of the build's backend: the first outcome that decides
      gives the result. */
  method Wait(ctx: Context?, obs: WaitObs) returns (r: WaitResult)
    ensures ctx == null ==> r == WaitReturned(-EINVAL)
    ensures ctx != null ==> r == WaitOutcome(obs, ctx.bytes)
  {
    if ctx == null {
      return WaitReturned(-EINVAL);
    }
    var i := 0;
    match obs {
      case KqueueObs(events) =>
        while i < |events|
          invariant i <= |events| && FirstFrom(obs, ctx.bytes, i) == WaitOutcome(obs, ctx.bytes)
        {
          match events[i] {
            case KeventFailed(errno) =>
              return WaitReturned(if errno == EINTR then 0 else -ENOMEM);
            case KeventReturned(fflags) =>
              if fflags & NOTE_EXTEND != 0 || fflags & NOTE_WRITE != 0 {
                return WaitReturned(0);
              }
          }
          i := i + 1;
        }
      case InotifyObs(notes) =>
        while i < |notes|
          invariant i <= |notes| && FirstFrom(obs, ctx.bytes, i) == WaitOutcome(obs, ctx.bytes)
        {
          var note := notes[i];
          if note.rc == -1 || note.rc == 0 {
            return WaitReturned(if note.errno == EINTR then 0 else -EIO);
          }
          if note.mask & IN_MODIFY != 0 {
            return WaitReturned(0);
          }
          i := i + 1;
        }
      case PollObs(probes) =>
        while i < |probes|
          invariant i <= |probes| && FirstFrom(obs, ctx.bytes, i) == WaitOutcome(obs, ctx.bytes)
        {
          match probes[i] {
            case StatFailed =>
              return WaitReturned(-EIO);
            case Probed(size, sleep) =>
              if size > ctx.bytes {
                return WaitReturned(0);
              }
              if sleep.SleepFailed? {
                return WaitReturned(if sleep.errno == EINTR then 0 else -EINTR);
              }
          }
          i := i + 1;
        }
    }
    r := Blocked;
  }

  /** The tail of a newline-terminated text without NUL bytes and without overlong lines: read
      into a context fresh from `ktail_init`, whatever its slots held, and then printed, it gives
      exactly its last `min(L, n)` lines, oldest first, where `L` is its number of lines. */
  lemma TailOfText(input: seq<byte>, slots: seq<seq<byte>>, maxLine: nat)
    requires |slots| > 0 && maxLine >= 2 && Shaped(slots, maxLine) && NoLongLine(input, maxLine)
    requires NUL !in input && (input == [] || input[|input| - 1] == NL)
    ensures var r := Scan(input, maxLine);
      && r.Scanned? && r.partial == [] && r.counted == |input| && Joined(r.lines) == input
      && var L, n := |r.lines|, |slots|;
         var m := if L < n then L else n;
         Printed(Finish(StoreAll(slots, maxLine, 0, r.lines), maxLine, L, r.partial), L)
           == Joined(r.lines[L - m..])
  {
    ScanOfShortLines(input, maxLine);
    var r := Scan(input, maxLine);
    forall k | 0 <= k < |r.lines|
      ensures NUL !in r.lines[k]
    {
      if NUL in r.lines[k] {
        JoinedHas(r.lines, k, NUL);
      }
    }
    PrintedLastLines(slots, maxLine, r.lines);
    assert Finish(StoreAll(slots, maxLine, 0, r.lines), maxLine, |r.lines|, r.partial)
        == StoreAll(slots, maxLine, 0, r.lines);
  }
}
