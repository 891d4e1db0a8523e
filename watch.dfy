/** The decision logic of `ktail_wait` (src/ktail.c): when does a backend observation count as a
    change of the followed file? Each of the three backends is chosen at build time and loops
    over the outcomes of a blocking kernel call; here those outcomes are given as a sequence. */
module Watch {
  import opened Types

  // kqueue filter flags (BSD) and the inotify event bit (Linux)
  const NOTE_WRITE: bv32 := 0x2
  const NOTE_EXTEND: bv32 := 0x4
  const IN_MODIFY: bv32 := 0x2

  /** One `kevent()` call: it failed with `errno`, or it delivered an event with `fflags`. */
  datatype KEvent = KeventFailed(errno: int) | KeventReturned(fflags: bv32)

  /** One `read()` of the inotify descriptor: its return value, `errno` afterwards, and the mask
      of the event read into the buffer. */
  datatype InotifyRead = InotifyRead(rc: int, errno: int, mask: bv32)

  /** One `usleep()` call. */
  datatype Sleep = Slept | SleepFailed(errno: int)

  /** One round of the polling loop: `stat()` failed, or it gave the file size, and the sleep
      that follows when the file has not grown. */
  datatype PollProbe = StatFailed | Probed(size: nat, sleep: Sleep)

  /** The outcomes a backend's loop meets, in order. The variant is the build's backend. */
  datatype WaitObs =
    | KqueueObs(events: seq<KEvent>)
    | InotifyObs(notes: seq<InotifyRead>)
    | PollObs(probes: seq<PollProbe>)

  /** `ktail_wait` returned `rc`, or it is still blocked when the outcomes run out. */
  datatype WaitResult = WaitReturned(rc: int) | Blocked

  /** What `ktail_wait_init` meets while it sets up the build's backend: for kqueue, whether
      `open()` of the file and `kqueue()` succeed; for inotify, whether `inotify_init()` and
      `inotify_add_watch()` succeed. The polling backend sets nothing up. */
  datatype SetupObs =
    | KqueueSetup(fileOpen: bool, queued: bool)
    | InotifySetup(inited: bool, watched: bool)
    | PollSetup

  /** Every call of the setup succeeded. */
  predicate SetUp(s: SetupObs) {
    match s
    case KqueueSetup(fileOpen, queued) => fileOpen && queued
    case InotifySetup(inited, watched) => inited && watched
    case PollSetup => true
  }

  /** What one kqueue outcome decides: a return code, or `None` to wait again. */
  function KqueueVerdict(e: KEvent): Option<int> {
    match e
    case KeventFailed(errno) => Some(if errno == EINTR then 0 else -ENOMEM)
    case KeventReturned(fflags) =>
      if fflags & NOTE_EXTEND != 0 || fflags & NOTE_WRITE != 0 then Some(0) else None
  }

  /** What one inotify read decides. A zero-length read is handled like a failed one. */
  function InotifyVerdict(r: InotifyRead): Option<int> {
    if r.rc == -1 || r.rc == 0 then Some(if r.errno == EINTR then 0 else -EIO)
    else if r.mask & IN_MODIFY != 0 then Some(0)
    else None
  }

  /** What one polling round decides, given the byte count already consumed. */
  function PollVerdict(p: PollProbe, bytes: nat): Option<int> {
    match p
    case StatFailed => Some(-EIO)
    case Probed(size, sleep) =>
      if size > bytes then Some(0)
      else match sleep
        case Slept => None
        case SleepFailed(errno) => Some(if errno == EINTR then 0 else -EINTR)
  }

  function Count(obs: WaitObs): nat {
    match obs
    case KqueueObs(events) => |events|
    case InotifyObs(notes) => |notes|
    case PollObs(probes) => |probes|
  }

  /** The verdict of the `i`-th outcome. */
  function VerdictAt(obs: WaitObs, bytes: nat, i: nat): Option<int>
    requires i < Count(obs)
  {
    match obs
    case KqueueObs(events) => KqueueVerdict(events[i])
    case InotifyObs(notes) => InotifyVerdict(notes[i])
    case PollObs(probes) => PollVerdict(probes[i], bytes)
  }

  /** The first decisive verdict from outcome `i` on. */
  function FirstFrom(obs: WaitObs, bytes: nat, i: nat): WaitResult
    requires i <= Count(obs)
    decreases Count(obs) - i
  {
    if i == Count(obs) then Blocked
    else match VerdictAt(obs, bytes, i)
      case Some(rc) => WaitReturned(rc)
      case None => FirstFrom(obs, bytes, i + 1)
  }

  /** A result comes from a decisive outcome; the wait stays blocked exactly when no outcome
      decides. */
  lemma {:induction false} FirstFromFound(obs: WaitObs, bytes: nat, i: nat)
    requires i <= Count(obs)
    decreases Count(obs) - i
    ensures var r := FirstFrom(obs, bytes, i);
      && (r.WaitReturned? ==> exists j :: i <= j < Count(obs) && VerdictAt(obs, bytes, j) == Some(r.rc))
      && (r.Blocked? <==> forall j :: i <= j < Count(obs) ==> VerdictAt(obs, bytes, j).None?)
  {
    if i < Count(obs) {
      FirstFromFound(obs, bytes, i + 1);
    }
  }

  /** The result of `ktail_wait` on a non-NULL context whose byte count is `bytes`. */
  function WaitOutcome(obs: WaitObs, bytes: nat): WaitResult {
    FirstFrom(obs, bytes, 0)
  }

  /** The outcome that makes `ktail_wait` return 0, spelled out per backend. */
  ghost predicate Wakes(obs: WaitObs, bytes: nat, i: nat)
    requires i < Count(obs)
  {
    match obs
    case KqueueObs(events) =>
      events[i] == KeventFailed(EINTR)
      || (events[i].KeventReturned? && events[i].fflags & (NOTE_EXTEND | NOTE_WRITE) != 0)
    case InotifyObs(notes) =>
      ((notes[i].rc == -1 || notes[i].rc == 0) && notes[i].errno == EINTR)
      || (notes[i].rc != -1 && notes[i].rc != 0 && notes[i].mask & IN_MODIFY != 0)
    case PollObs(probes) =>
      probes[i].Probed?
      && (probes[i].size > bytes || probes[i].sleep == SleepFailed(EINTR))
  }

  /** The outcome that makes `ktail_wait` go round its loop once more. */
  ghost predicate KeepsWaiting(obs: WaitObs, bytes: nat, i: nat)
    requires i < Count(obs)
  {
    match obs
    case KqueueObs(events) =>
      events[i].KeventReturned? && events[i].fflags & (NOTE_EXTEND | NOTE_WRITE) == 0
    case InotifyObs(notes) =>
      notes[i].rc != -1 && notes[i].rc != 0 && notes[i].mask & IN_MODIFY == 0
    case PollObs(probes) =>
      probes[i].Probed? && probes[i].size <= bytes && probes[i].sleep == Slept
  }

  lemma VerdictCases(obs: WaitObs, bytes: nat, i: nat)
    requires i < Count(obs)
    ensures VerdictAt(obs, bytes, i) == Some(0) <==> Wakes(obs, bytes, i)
    ensures VerdictAt(obs, bytes, i).None? <==> KeepsWaiting(obs, bytes, i)
  {
    match obs
    case KqueueObs(events) =>
      var f := if events[i].KeventReturned? then events[i].fflags else 0;
      assert f & (NOTE_EXTEND | NOTE_WRITE) == (f & NOTE_EXTEND) | (f & NOTE_WRITE);
      assert (f & NOTE_EXTEND) | (f & NOTE_WRITE) == 0 <==> f & NOTE_EXTEND == 0 && f & NOTE_WRITE == 0;
    case InotifyObs(notes) =>
    case PollObs(probes) =>
  }

  lemma {:induction false} FirstFromIsFirst(obs: WaitObs, bytes: nat, i: nat, rc: int)
    requires i <= Count(obs)
    decreases Count(obs) - i
    ensures FirstFrom(obs, bytes, i) == WaitReturned(rc) <==>
      exists j :: i <= j < Count(obs) && VerdictAt(obs, bytes, j) == Some(rc)
                  && forall k :: i <= k < j ==> VerdictAt(obs, bytes, k).None?
  {
    if i < Count(obs) && VerdictAt(obs, bytes, i).None? {
      FirstFromIsFirst(obs, bytes, i + 1, rc);
      if FirstFrom(obs, bytes, i + 1) == WaitReturned(rc) {
        var j :| i + 1 <= j < Count(obs) && VerdictAt(obs, bytes, j) == Some(rc)
                 && forall k :: i + 1 <= k < j ==> VerdictAt(obs, bytes, k).None?;
        assert forall k :: i <= k < j ==> VerdictAt(obs, bytes, k).None?;
      }
    }
  }

  /** `ktail_wait` returns 0 exactly when, after outcomes that keep it waiting, it meets one
      that wakes it: a kqueue event with NOTE_EXTEND or NOTE_WRITE or an interrupted `kevent`;
      an inotify event with IN_MODIFY or an interrupted read; a file grown past `bytes` or an
      interrupted sleep. */
  lemma WaitReturnsZeroIff(obs: WaitObs, bytes: nat)
    ensures WaitOutcome(obs, bytes) == WaitReturned(0) <==>
      exists j :: 0 <= j < Count(obs) && Wakes(obs, bytes, j)
                  && forall k :: 0 <= k < j ==> KeepsWaiting(obs, bytes, k)
  {
    FirstFromIsFirst(obs, bytes, 0, 0);
    forall j | 0 <= j < Count(obs) {
      VerdictCases(obs, bytes, j);
    }
  }

  /** The codes each backend can return besides 0: kqueue -ENOMEM, inotify -EIO, polling -EIO
      (failed `stat`) or -EINTR (failed sleep for another reason than a signal). */
  lemma WaitErrorCodes(obs: WaitObs, bytes: nat)
    ensures var r := WaitOutcome(obs, bytes);
      r.WaitReturned? && r.rc != 0 ==>
        match obs
        case KqueueObs(_) => r.rc == -ENOMEM
        case InotifyObs(_) => r.rc == -EIO
        case PollObs(_) => r.rc == -EIO || r.rc == -EINTR
  {
    FirstFromFound(obs, bytes, 0);
  }
}
