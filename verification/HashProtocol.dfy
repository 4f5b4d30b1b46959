/** The reader and the hash workers of HashThread and IndividualHashThread (src/hash.c:1967-2107), as
    interleaved steps. The reader fills a ring of buffers by asynchronous reads and hands one buffer
    at a time to every worker through a pair of auto-reset events each. A read in flight may write
    anything into its target at any moment; a worker hashes its buffer byte by byte meanwhile. */
module HashProtocol {
  import opened Arithmetic
  import opened HashStream

  /** The image, the number of workers, the number of buffers and their size. */
  datatype Config = Config(file: seq<byte>, workers: nat, buffers: nat, size: nat)

  datatype Io = Idle | Pending(target: nat) | Done(count: nat)

  /** Where the reader stands; the names follow the numbered comments of the loop. */
  datatype ReaderPc =
    | Setup | Loop | WaitRead | Advance | Launch | WaitReady | SetProc | Signal(k: nat) | Join | Success

  /** Where a worker stands. `Hashing` is the call of hash_write: its two arguments, and the bytes it
      has read so far. `Failed` is a worker that left with exit code 1. */
  datatype WorkerPc =
    | Announce | Waiting | Awake | Fetch | Hashing(buf: nat, count: nat, got: seq<byte>) | Finished | Failed

  /** A worker and the chunks its context has absorbed. */
  datatype Worker = Worker(pc: WorkerPc, chunks: seq<seq<byte>>)

  /** The shared state; `log` and `dispatched` are history: the chunks read so far and the number of
      times `proc` was set. */
  datatype State = State(
    buffers: seq<seq<byte>>, sizes: seq<nat>, readBuf: nat, proc: nat,
    io: Io, offset: nat, reader: ReaderPc, aborted: bool,
    dataReady: seq<bool>, threadReady: seq<bool>, workers: seq<Worker>,
    log: seq<seq<byte>>, dispatched: nat)

  /** One step of one of the parties. */
  datatype Action =
    | ReaderStep                           // the next statement of HashThread
    | Abort                                // HashThread gives up: cancelled, or a call failed or timed out
    | Scribble(data: seq<byte>)            // the read in flight changes its target
    | Complete(count: nat, data: seq<byte>) // the read in flight ends
    | WorkerStep(i: nat)                   // the next step of a worker
    | WorkerFail(i: nat)                   // a worker's wait times out, or its SetEvent fails

  predicate ValidConfig(c: Config)
  {
    c.buffers >= 2 && c.size > 0
  }

  /** The lengths of the shared arrays and the ranges of the indices. */
  predicate Shaped(c: Config, s: State)
  {
    && |s.buffers| == |s.sizes| == c.buffers
    && (forall b :: 0 <= b < c.buffers ==> |s.buffers[b]| == c.size)
    && s.readBuf < c.buffers && s.proc < c.buffers
    && (s.io.Pending? ==> s.io.target < c.buffers)
    && |s.dataReady| == |s.threadReady| == |s.workers| == c.workers
    && (s.reader.Signal? ==> s.reader.k <= c.workers)
    && (forall i :: 0 <= i < c.workers ==> ShapedWorker(c, s, s.workers[i]))
  }

  predicate ShapedWorker(c: Config, s: State, w: Worker)
  {
    w.pc.Hashing? ==> w.pc.buf < c.buffers && |w.pc.got| <= w.pc.count
  }

  /** Before the reader's first statement: events just created, anything in the globals. */
  predicate Initial(c: Config, s: State)
  {
    && Shaped(c, s)
    && s.io == Idle && s.offset == 0 && s.reader == Setup && !s.aborted
    && s.log == [] && s.dispatched == 0
    && forall i :: 0 <= i < c.workers ==> !s.dataReady[i] && !s.threadReady[i] && s.workers[i] == Worker(Announce, [])
  }

  // ----- The reader -----

  predicate Exited(w: Worker)
  {
    w.pc == Finished || w.pc == Failed
  }

  predicate ReaderEnabled(c: Config, s: State)
    requires Shaped(c, s)
  {
    && !s.aborted
    && match s.reader
       case WaitRead => s.io.Done?
       case WaitReady => forall i :: 0 <= i < c.workers ==> s.threadReady[i]
       case Join => forall i :: 0 <= i < c.workers ==> Exited(s.workers[i])
       case Success => false
       case _ => true
  }

  function ReaderDo(c: Config, s: State): State
    requires ValidConfig(c) && Shaped(c, s) && ReaderEnabled(c, s)
  {
    match s.reader
    case Setup => s.(readBuf := 0, proc := 1, sizes := s.sizes[1 := 1], io := Pending(0), reader := Loop)
    case Loop => s.(reader := if s.sizes[s.proc] != 0 then WaitRead else Join)
    case WaitRead => GotRead(s, s.io.count)
    case Advance => s.(readBuf := (s.readBuf + 1) % c.buffers, reader := Launch)
    case Launch => s.(io := Pending(s.readBuf), reader := WaitReady)
    case WaitReady => s.(threadReady := seq(c.workers, _ => false), reader := SetProc)
    case SetProc =>
      s.(proc := (s.readBuf + c.buffers - 1) % c.buffers, dispatched := s.dispatched + 1, reader := Signal(0))
    case Signal(k) =>
      if k < c.workers then s.(dataReady := s.dataReady[k := true], reader := Signal(k + 1)) else s.(reader := Loop)
    case Join => s.(reader := Success)
    case Success => s
  }

  /** WaitFileAsync and GetSizeAsync: the size is noted and the file offset moves on. */
  function GotRead(s: State, n: nat): State
    requires |s.buffers| == |s.sizes| && s.readBuf < |s.buffers|
  {
    var chunk := if n <= |s.buffers[s.readBuf]| then s.buffers[s.readBuf][..n] else s.buffers[s.readBuf];
    s.(sizes := s.sizes[s.readBuf := n], io := Idle, offset := s.offset + n, log := s.log + [chunk], reader := Advance)
  }

  // ----- The read in flight -----

  /** A read may be short, but only gives nothing at the end of the file. */
  predicate Reads(c: Config, offset: nat, n: nat, data: seq<byte>)
  {
    && |data| == c.size && n <= c.size && offset + n <= |c.file|
    && (n == 0 <==> offset == |c.file|)
    && data[..n] == c.file[offset..offset + n]
  }

  // ----- A worker -----

  predicate WorkerEnabled(c: Config, s: State, i: nat)
    requires Shaped(c, s) && i < c.workers
  {
    match s.workers[i].pc
    case Waiting => s.dataReady[i]
    case Finished => false
    case Failed => false
    case _ => true
  }

  function ByteAt(buffer: seq<byte>, k: nat): byte
  {
    if k < |buffer| then buffer[k] else 0
  }

  function WorkerDo(c: Config, s: State, i: nat): State
    requires Shaped(c, s) && i < c.workers && WorkerEnabled(c, s, i)
  {
    var w := s.workers[i];
    match w.pc
    case Announce => s.(threadReady := s.threadReady[i := true], workers := s.workers[i := w.(pc := Waiting)])
    case Waiting => s.(dataReady := s.dataReady[i := false], workers := s.workers[i := w.(pc := Awake)])
    case Awake => s.(workers := s.workers[i := w.(pc := if s.sizes[s.proc] != 0 then Fetch else Finished)])
    case Fetch => s.(workers := s.workers[i := w.(pc := Hashing(s.proc, s.sizes[s.proc], []))])
    case Hashing(b, n, got) =>
      if |got| == n then s.(workers := s.workers[i := Worker(Announce, w.chunks + [got])])
      else s.(workers := s.workers[i := w.(pc := Hashing(b, n, got + [ByteAt(s.buffers[b], |got|)]))])
    case Finished => s
    case Failed => s
  }

  // ----- Steps and runs -----

  predicate Enabled(c: Config, s: State, a: Action)
    requires Shaped(c, s)
  {
    match a
    case ReaderStep => ReaderEnabled(c, s)
    case Abort => !s.aborted && s.reader != Success
    case Scribble(data) => s.io.Pending? && |data| == c.size
    case Complete(n, data) => s.io.Pending? && Reads(c, s.offset, n, data)
    case WorkerStep(i) => i < c.workers && WorkerEnabled(c, s, i)
    case WorkerFail(i) => i < c.workers && (s.workers[i].pc == Announce || s.workers[i].pc == Waiting)
  }

  function Do(c: Config, s: State, a: Action): State
    requires ValidConfig(c) && Shaped(c, s) && Enabled(c, s, a)
  {
    match a
    case ReaderStep => ReaderDo(c, s)
    case Abort => s.(aborted := true)
    case Scribble(data) => s.(buffers := s.buffers[s.io.target := data])
    case Complete(n, data) => s.(buffers := s.buffers[s.io.target := data], io := Done(n))
    case WorkerStep(i) => WorkerDo(c, s, i)
    case WorkerFail(i) => s.(workers := s.workers[i := s.workers[i].(pc := Failed)])
  }

  /** `t` is reached from `s` by the steps `run`. */
  ghost predicate Reaches(c: Config, s: State, run: seq<Action>, t: State)
    requires ValidConfig(c)
    decreases |run|
  {
    if run == [] then s == t
    else Shaped(c, s) && Enabled(c, s, run[0]) && Reaches(c, Do(c, s, run[0]), run[1..], t)
  }

  // ----- The ring -----

  /** The buffer of chunk `j`. */
  function Slot(j: int, n: nat): (r: nat)
    requires n > 0
    ensures r < n
  {
    j % n
  }

  lemma SlotNext(j: int, n: nat)
    requires n > 1
    ensures Slot(j + 1, n) == (Slot(j, n) + 1) % n
  {
    var q, r := j / n, j % n;
    assert j == n * q + r;
    if r + 1 < n {
      ModUnique(j + 1, n, q, r + 1);
      ModUnique(r + 1, n, 0, r + 1);
    } else {
      ModUnique(j + 1, n, q + 1, 0);
      ModUnique(n, n, 1, 0);
    }
  }

  lemma SlotBack(j: int, n: nat)
    requires n > 1
    ensures (Slot(j, n) + n - 1) % n == Slot(j - 1, n)
  {
    var q, r := j / n, j % n;
    assert j == n * q + r;
    if r > 0 {
      ModUnique(j - 1, n, q, r - 1);
      ModUnique(r + n - 1, n, 1, r - 1);
    } else {
      ModUnique(j - 1, n, q - 1, n - 1);
      ModUnique(n - 1, n, 0, n - 1);
    }
  }

  lemma SlotZero(n: nat)
    requires n > 1
    ensures Slot(0, n) == 0
  {
    ModUnique(0, n, 0, 0);
  }

  /** Three chunks in a row are in three buffers. */
  lemma SlotsDiffer(j: int, n: nat)
    requires n > 2
    ensures Slot(j, n) != Slot(j - 1, n) && Slot(j, n) != Slot(j - 2, n)
  {
    var q, r := j / n, j % n;
    assert j == n * q + r;
    if r >= 1 { ModUnique(j - 1, n, q, r - 1); } else { ModUnique(j - 1, n, q - 1, n - 1); }
    if r >= 2 { ModUnique(j - 2, n, q, r - 2); } else { ModUnique(j - 2, n, q - 1, n + r - 2); }
  }

  // ----- What every step keeps -----

  /** Chunk `j` is still in its buffer. */
  ghost predicate Stored(c: Config, s: State, j: nat)
    requires ValidConfig(c) && Shaped(c, s) && j < |s.log|
  {
    var b := Slot(j, c.buffers);
    |s.log[j]| <= c.size && s.sizes[b] == |s.log[j]| && s.buffers[b][..|s.log[j]|] == s.log[j]
  }

  /** The last two chunks read are intact. */
  ghost predicate LastStored(c: Config, s: State)
    requires ValidConfig(c) && Shaped(c, s)
  {
    (|s.log| >= 1 ==> Stored(c, s, |s.log| - 1)) && (|s.log| >= 2 ==> Stored(c, s, |s.log| - 2))
  }

  /** The chunks read are the file up to the offset, and only the end of the file gives none. */
  ghost predicate LogOk(c: Config, s: State)
  {
    && s.offset <= |c.file| && Flatten(s.log) == c.file[..s.offset]
    && (forall j :: 0 <= j < |s.log| - 1 ==> s.log[j] != [])
    && (|s.log| > 0 && s.log[|s.log| - 1] == [] ==> s.offset == |c.file|)
  }

  predicate Ended(log: seq<seq<byte>>)
  {
    |log| > 0 && log[|log| - 1] == []
  }

  ghost predicate IoOk(c: Config, s: State)
    requires Shaped(c, s)
  {
    && (s.io.Pending? ==> s.io.target == s.readBuf)
    && (s.io.Done? ==> Reads(c, s.offset, s.io.count, s.buffers[s.readBuf]))
  }

  /** The buffers in use, by where the reader stands. */
  ghost predicate ReaderOk(c: Config, s: State)
    requires ValidConfig(c) && Shaped(c, s)
  {
    var n, d := |s.log|, s.dispatched;
    && (match s.reader
        case Setup => n == 0 == d && s.io == Idle
        case Advance => n == d + 1 && s.io == Idle && s.readBuf == Slot(n - 1, c.buffers)
        case Launch => n == d + 1 && s.io == Idle && s.readBuf == Slot(n, c.buffers)
        case WaitReady => n == d + 1 && s.io != Idle && s.readBuf == Slot(n, c.buffers)
        case SetProc => n == d + 1 && s.io != Idle && s.readBuf == Slot(n, c.buffers)
        case _ => n == d && s.io != Idle && s.readBuf == Slot(n, c.buffers))
    && (d > 0 ==> s.proc == Slot(d - 1, c.buffers))
    && (s.reader == Loop && d == 0 ==> s.sizes[s.proc] != 0)
    && (s.reader.Signal? ==> d > 0)
    && (s.reader == WaitRead ==> !Ended(s.log))
    && (s.reader == Join || s.reader == Success ==> Ended(s.log))
    && (s.reader == Success ==> forall i :: 0 <= i < c.workers ==> Exited(s.workers[i]))
  }

  /** Whether the reader has taken a worker's ready event and not yet given it data. */
  datatype Hold = Free | Before | After

  function HoldOf(r: ReaderPc, i: nat): Hold
  {
    if r.SetProc? then Before else if r.Signal? && r.k <= i then After else Free
  }

  /** Who may move: exactly one of the two events, the worker or the reader holds the turn. */
  ghost predicate WorkerOk(c: Config, log: seq<seq<byte>>, d: nat, hold: Hold, tr: bool, dr: bool, w: Worker)
    requires c.buffers > 0
  {
    var e := |w.chunks|;
    && d <= |log| && e <= d && w.chunks == log[..e]
    && (forall j :: 0 <= j < e ==> log[j] != [])
    && (match hold
        case Before => (w.pc == Waiting || w.pc == Failed) && !tr && !dr && e == d
        case After => (w.pc == Waiting || w.pc == Failed) && !tr && !dr && e == d - 1
        case Free =>
          match w.pc
          case Announce => !tr && !dr && e == d
          case Waiting => tr != dr && e == if tr then d else d - 1
          case Failed => !(tr && dr) && e == if dr then d - 1 else d
          case _ => !tr && !dr && e == d - 1)
    && (w.pc == Fetch || w.pc.Hashing? ==> e < |log| && log[e] != [])
    && (w.pc == Finished ==> e < |log| && log[e] == [])
    && (w.pc.Hashing? ==>
          && w.pc.buf == Slot(e, c.buffers) && w.pc.count == |log[e]|
          && |w.pc.got| <= |log[e]| && w.pc.got == log[e][..|w.pc.got|])
  }

  ghost predicate WorkersOk(c: Config, s: State)
    requires ValidConfig(c) && Shaped(c, s)
  {
    forall i {:trigger s.workers[i]} :: 0 <= i < c.workers ==>
      WorkerOk(c, s.log, s.dispatched, HoldOf(s.reader, i), s.threadReady[i], s.dataReady[i], s.workers[i])
  }

  ghost predicate Inv(c: Config, s: State)
  {
    ValidConfig(c) && Shaped(c, s) && LogOk(c, s) && IoOk(c, s) && LastStored(c, s) && ReaderOk(c, s) && WorkersOk(c, s)
  }

  lemma InitialInv(c: Config, s: State)
    requires ValidConfig(c) && Initial(c, s)
    ensures Inv(c, s)
  {
  }

  /** A read in flight leaves the last two chunks alone. */
  lemma TargetApart(c: Config, s: State, data: seq<byte>)
    requires Inv(c, s) && c.buffers >= 3 && s.io.Pending? && |data| == c.size
    ensures LastStored(c, s.(buffers := s.buffers[s.io.target := data]))
  {
    hide Slot;
    SlotsDiffer(|s.log|, c.buffers);
  }

  lemma ReadSteps(c: Config, s: State, a: Action)
    requires Inv(c, s) && c.buffers >= 3 && Enabled(c, s, a) && (a.Scribble? || a.Complete?)
    ensures Inv(c, Do(c, s, a))
  {
    hide Slot, WorkerOk, LastStored;
    TargetApart(c, s, a.data);
    StoredFrame(c, s.(buffers := s.buffers[s.io.target := a.data]), Do(c, s, a));
  }

  lemma StoredFrame(c: Config, s: State, t: State)
    requires ValidConfig(c) && Shaped(c, s) && Shaped(c, t) && LastStored(c, s)
    requires t.buffers == s.buffers && t.sizes == s.sizes && t.log == s.log
    ensures LastStored(c, t)
  {
  }

  lemma AbortStep(c: Config, s: State)
    requires Inv(c, s) && Enabled(c, s, Abort)
    ensures Inv(c, Do(c, s, Abort))
  {
    hide Slot, LastStored, WorkerOk;
    StoredFrame(c, s, Do(c, s, Abort));
  }

  /** What a worker that was given data sees. */
  lemma CurrentChunk(c: Config, s: State, i: nat)
    requires Inv(c, s) && i < c.workers
    ensures s.workers[i].pc == Awake || s.workers[i].pc == Fetch || s.workers[i].pc.Hashing? ==>
      var e := |s.workers[i].chunks|;
      && e == s.dispatched - 1 < |s.log| && s.proc == Slot(e, c.buffers) && Stored(c, s, e)
      && s.sizes[s.proc] == |s.log[e]| <= c.size && s.buffers[s.proc][..|s.log[e]|] == s.log[e]
  {
    hide Slot;
    assert WorkerOk(c, s.log, s.dispatched, HoldOf(s.reader, i), s.threadReady[i], s.dataReady[i], s.workers[i]);
  }

  /** Only worker `i` and its events change. */
  lemma WorkerMoves(c: Config, s: State, t: State, i: nat)
    requires Inv(c, s) && i < c.workers && !Exited(s.workers[i]) && Shaped(c, t)
    requires t == s.(workers := t.workers, threadReady := t.threadReady, dataReady := t.dataReady)
    requires t.workers == s.workers[i := t.workers[i]]
    requires t.threadReady == s.threadReady[i := t.threadReady[i]]
    requires t.dataReady == s.dataReady[i := t.dataReady[i]]
    requires WorkerOk(c, t.log, t.dispatched, HoldOf(t.reader, i), t.threadReady[i], t.dataReady[i], t.workers[i])
    ensures Inv(c, t)
  {
    hide Slot, WorkerOk, LastStored;
    StoredFrame(c, s, t);
  }

  ghost predicate LocalOk(c: Config, t: State, i: nat)
  {
    && c.buffers > 0 && i < |t.workers| && i < |t.threadReady| && i < |t.dataReady| && ShapedWorker(c, t, t.workers[i])
    && WorkerOk(c, t.log, t.dispatched, HoldOf(t.reader, i), t.threadReady[i], t.dataReady[i], t.workers[i])
  }

  /** The worker's own part of its step. */
  lemma WorkerLocal(c: Config, s: State, i: nat)
    requires Inv(c, s) && i < c.workers && WorkerEnabled(c, s, i)
    ensures LocalOk(c, WorkerDo(c, s, i), i)
  {
    hide Slot, LastStored, Stored;
    CurrentChunk(c, s, i);
    assert WorkerOk(c, s.log, s.dispatched, HoldOf(s.reader, i), s.threadReady[i], s.dataReady[i], s.workers[i]);
    if s.workers[i].pc.Hashing? {
      var e := |s.workers[i].chunks|;
      HashingByte(s.log[e], s.buffers[s.proc], |s.workers[i].pc.got|);
      assert s.log[..e] + [s.log[e]] == s.log[..e + 1];
    }
  }

  lemma HashingByte(chunk: seq<byte>, buffer: seq<byte>, k: nat)
    ensures k < |chunk| <= |buffer| && buffer[..|chunk|] == chunk ==>
      ByteAt(buffer, k) == chunk[k] && chunk[..k] + [chunk[k]] == chunk[..k + 1]
    ensures k == |chunk| ==> chunk[..k] == chunk
  {
    if k < |chunk| <= |buffer| && buffer[..|chunk|] == chunk {
      assert buffer[k] == buffer[..|chunk|][k];
    }
    if k == |chunk| { assert chunk[..k] == chunk; }
  }

  lemma WorkerSteps(c: Config, s: State, i: nat)
    requires Inv(c, s) && Enabled(c, s, WorkerStep(i))
    ensures Inv(c, Do(c, s, WorkerStep(i)))
  {
    hide Slot, LastStored, WorkerOk, ReaderOk, IoOk, LogOk;
    WorkerLocal(c, s, i);
    WorkerMoves(c, s, Do(c, s, WorkerStep(i)), i);
  }

  lemma FailLocal(c: Config, s: State, i: nat)
    requires Inv(c, s) && i < c.workers && (s.workers[i].pc == Announce || s.workers[i].pc == Waiting)
    ensures
      WorkerOk(c, s.log, s.dispatched, HoldOf(s.reader, i), s.threadReady[i], s.dataReady[i],
               s.workers[i].(pc := Failed))
  {
    hide Slot, LastStored, LogOk, IoOk, ReaderOk;
    assert WorkerOk(c, s.log, s.dispatched, HoldOf(s.reader, i), s.threadReady[i], s.dataReady[i], s.workers[i]);
  }

  lemma FailStep(c: Config, s: State, i: nat)
    requires Inv(c, s) && Enabled(c, s, WorkerFail(i))
    ensures Inv(c, Do(c, s, WorkerFail(i)))
  {
    hide Slot, LastStored, WorkerOk, ReaderOk, IoOk, LogOk;
    FailLocal(c, s, i);
    WorkerMoves(c, s, Do(c, s, WorkerFail(i)), i);
  }

  // ----- The reader's steps -----

  /** Steps of the reader that only move it, or the buffer it reads into. */
  lemma ReaderMoves(c: Config, s: State)
    requires Inv(c, s) && c.buffers >= 3 && ReaderEnabled(c, s)
    requires s.reader == Setup || s.reader == Loop || s.reader == Advance || s.reader == Launch || s.reader == Join
    ensures Inv(c, ReaderDo(c, s))
  {
    hide Slot, WorkerOk, Flatten;
    SlotNext(|s.log| - 1, c.buffers);
    SlotZero(c.buffers);
  }

  lemma FlattenLast(chunks: seq<seq<byte>>, x: seq<byte>)
    ensures Flatten(chunks + [x]) == Flatten(chunks) + x
  {
    assert (chunks + [x])[..|chunks|] == chunks;
  }

  lemma WorkerLogGrows(c: Config, log: seq<seq<byte>>, x: seq<byte>, d: nat, hold: Hold, tr: bool, dr: bool, w: Worker)
    requires c.buffers > 0 && WorkerOk(c, log, d, hold, tr, dr, w)
    ensures WorkerOk(c, log + [x], d, hold, tr, dr, w)
  {
    hide Slot;
    assert (log + [x])[..|w.chunks|] == log[..|w.chunks|];
  }

  /** The chunk just read is stored beside the one before it. */
  lemma ReadStored(c: Config, s: State)
    requires Inv(c, s) && c.buffers >= 3 && ReaderEnabled(c, s) && s.reader == WaitRead
    ensures LastStored(c, ReaderDo(c, s)) && LogOk(c, ReaderDo(c, s))
  {
    hide Slot, WorkersOk, LogOk;
    SlotsDiffer(|s.log|, c.buffers);
    ReadLogged(c, s);
  }

  lemma ReadLogged(c: Config, s: State)
    requires Inv(c, s) && ReaderEnabled(c, s) && s.reader == WaitRead
    ensures LogOk(c, ReaderDo(c, s))
  {
    hide Slot, WorkersOk, LastStored, Flatten;
    var t := ReaderDo(c, s);
    var chunk := s.buffers[s.readBuf][..s.io.count];
    FlattenLast(s.log, chunk);
    assert c.file[..s.offset] + c.file[s.offset..t.offset] == c.file[..t.offset];
  }

  lemma ReaderReads(c: Config, s: State)
    requires Inv(c, s) && c.buffers >= 3 && ReaderEnabled(c, s) && s.reader == WaitRead
    ensures Inv(c, ReaderDo(c, s))
  {
    hide Slot, WorkerOk, LastStored, LogOk;
    var t := ReaderDo(c, s);
    ReadStored(c, s);
    forall i {:trigger t.workers[i]} | 0 <= i < c.workers
      ensures WorkerOk(c, t.log, t.dispatched, HoldOf(t.reader, i), t.threadReady[i], t.dataReady[i], t.workers[i])
    {
      var w := s.workers[i];
      WorkerLogGrows(c, s.log, t.log[|s.log|], s.dispatched, HoldOf(s.reader, i), s.threadReady[i], s.dataReady[i], w);
    }
  }

  /** Collecting every ready event, choosing the buffer and handing it out. */
  lemma ReaderHands(c: Config, s: State)
    requires Inv(c, s) && c.buffers >= 3 && ReaderEnabled(c, s)
    requires s.reader == WaitReady || s.reader == SetProc || s.reader.Signal?
    ensures Inv(c, ReaderDo(c, s))
  {
    hide Slot, LastStored, LogOk, WorkerOk, WorkersOk;
    var t := ReaderDo(c, s);
    StoredFrame(c, s, t);
    SlotBack(|s.log|, c.buffers);
    LogFrame(c, s, t);
    HandsWorkers(c, s);
  }

  lemma HandsWorkers(c: Config, s: State)
    requires Inv(c, s) && ReaderEnabled(c, s) && (s.reader == WaitReady || s.reader == SetProc || s.reader.Signal?)
    ensures Shaped(c, ReaderDo(c, s)) && WorkersOk(c, ReaderDo(c, s))
  {
    hide Slot, LastStored, LogOk, IoOk;
    var t := ReaderDo(c, s);
    forall i {:trigger t.workers[i]} | 0 <= i < c.workers
      ensures WorkerOk(c, t.log, t.dispatched, HoldOf(t.reader, i), t.threadReady[i], t.dataReady[i], t.workers[i])
    {
      var w := s.workers[i];
      assert WorkerOk(c, s.log, s.dispatched, HoldOf(s.reader, i), s.threadReady[i], s.dataReady[i], w);
    }
  }

  lemma LogFrame(c: Config, s: State, t: State)
    requires LogOk(c, s) && t.log == s.log && t.offset == s.offset
    ensures LogOk(c, t)
  {
  }

  /** Every step keeps the invariant, when there are at least three buffers. */
  lemma StepInv(c: Config, s: State, a: Action)
    requires Inv(c, s) && c.buffers >= 3 && Enabled(c, s, a)
    ensures Inv(c, Do(c, s, a))
  {
    hide Inv;
    match a
    case ReaderStep =>
      if s.reader == WaitRead { ReaderReads(c, s); }
      else if s.reader == WaitReady || s.reader == SetProc || s.reader.Signal? { ReaderHands(c, s); }
      else { ReaderMoves(c, s); }
    case Abort => AbortStep(c, s);
    case Scribble(_) => ReadSteps(c, s, a);
    case Complete(_, _) => ReadSteps(c, s, a);
    case WorkerStep(i) => WorkerSteps(c, s, i);
    case WorkerFail(i) => FailStep(c, s, i);
  }

  lemma {:induction false} RunInv(c: Config, s: State, run: seq<Action>, t: State)
    requires Inv(c, s) && c.buffers >= 3 && Reaches(c, s, run, t)
    ensures Inv(c, t)
    decreases |run|
  {
    if run != [] {
      StepInv(c, s, run[0]);
      RunInv(c, Do(c, s, run[0]), run[1..], t);
    }
  }

  // ----- Safety of every run -----

  /** In every interleaving, no read in flight targets the buffer being hashed. */
  lemma NoOverwrite(c: Config, s: State, run: seq<Action>, t: State, i: nat)
    requires ValidConfig(c) && c.buffers >= 3 && Initial(c, s) && Reaches(c, s, run, t) && i < c.workers
    ensures Shaped(c, t)
    ensures t.io.Pending? && (t.workers[i].pc == Awake || t.workers[i].pc == Fetch) ==> t.proc != t.io.target
    ensures t.io.Pending? && t.workers[i].pc.Hashing? ==> t.workers[i].pc.buf == t.proc != t.io.target
  {
    hide Slot, LastStored, LogOk;
    InitialInv(c, s);
    RunInv(c, s, run, t);
    CurrentChunk(c, t, i);
    SlotsDiffer(|t.log|, c.buffers);
    assert WorkerOk(c, t.log, t.dispatched, HoldOf(t.reader, i), t.threadReady[i], t.dataReady[i], t.workers[i]);
  }

  /** In every interleaving, what a worker has absorbed is the first chunks that were read, each once
      and in order, none of them empty; and the chunks that were read are the file up to the offset. */
  lemma InOrder(c: Config, s: State, run: seq<Action>, t: State, i: nat)
    requires ValidConfig(c) && c.buffers >= 3 && Initial(c, s) && Reaches(c, s, run, t) && i < c.workers
    ensures |t.workers| == c.workers && t.offset <= |c.file| && Flatten(t.log) == c.file[..t.offset]
    ensures |t.workers[i].chunks| <= |t.log| && t.workers[i].chunks == t.log[..|t.workers[i].chunks|]
    ensures t.dispatched - 1 <= |t.workers[i].chunks| <= t.dispatched
    ensures forall j :: 0 <= j < |t.workers[i].chunks| ==> t.workers[i].chunks[j] != []
  {
    hide Slot, LastStored;
    InitialInv(c, s);
    RunInv(c, s, run, t);
    assert WorkerOk(c, t.log, t.dispatched, HoldOf(t.reader, i), t.threadReady[i], t.dataReady[i], t.workers[i]);
  }

  /** What a worker has left to do once the log ends with the empty chunk. */
  lemma AllButLast(log: seq<seq<byte>>)
    requires Ended(log)
    ensures Flatten(log[..|log| - 1]) == Flatten(log)
  {
  }

  lemma SuccessMeans(c: Config, t: State, i: nat)
    requires Inv(c, t) && t.reader == Success && i < c.workers
    ensures Exited(t.workers[i]) && Flatten(t.workers[i].chunks) == c.file
  {
    hide Slot, LastStored, Flatten;
    assert WorkerOk(c, t.log, t.dispatched, HoldOf(t.reader, i), t.threadReady[i], t.dataReady[i], t.workers[i]);
    AllButLast(t.log);
    assert c.file[..|c.file|] == c.file;
  }

  /** A worker fails only by a failing step of its own, for good. */
  lemma {:induction false} FailedBy(c: Config, s: State, run: seq<Action>, t: State, i: nat)
    requires ValidConfig(c) && Reaches(c, s, run, t) && i < c.workers && |s.workers| == c.workers
    ensures |t.workers| == c.workers
    ensures t.workers[i].pc == Failed <==> s.workers[i].pc == Failed || WorkerFail(i) in run
    decreases |run|
  {
    hide Shaped;
    if run != [] {
      FailedStep(c, s, run[0], i);
      FailedBy(c, Do(c, s, run[0]), run[1..], t, i);
      assert run == [run[0]] + run[1..];
    }
  }

  lemma FailedStep(c: Config, s: State, a: Action, i: nat)
    requires ValidConfig(c) && Shaped(c, s) && Enabled(c, s, a) && i < c.workers
    ensures |Do(c, s, a).workers| == c.workers
    ensures Do(c, s, a).workers[i].pc == Failed <==> s.workers[i].pc == Failed || a == WorkerFail(i)
  {
  }

  /** At a successful end every worker has absorbed the whole file. It has gone on to its digest exactly
      when no step of the worker failed: the reader waits for the threads to exit and does not look at how
      they did. */
  lemma SuccessWhole(c: Config, s: State, run: seq<Action>, t: State, i: nat)
    requires ValidConfig(c) && c.buffers >= 3 && Initial(c, s) && Reaches(c, s, run, t) && i < c.workers
    requires t.reader == Success
    ensures |t.workers| == c.workers && Flatten(t.workers[i].chunks) == c.file
    ensures t.workers[i].pc == Finished <==> WorkerFail(i) !in run
  {
    hide Slot, LastStored, Flatten;
    InitialInv(c, s);
    RunInv(c, s, run, t);
    SuccessMeans(c, t, i);
    FailedBy(c, s, run, t, i);
  }

  /** What a worker that finished has computed: a context is given its chunks, one write each, and closed.
      It is the digest of the whole file. */
  method SuccessDigest<S(!new)>(c: Config, ghost s: State, ghost run: seq<Action>, t: State, i: nat, alg: Algorithm<S>,
                                accelerated: bool)
    returns (digest: S)
    requires ValidConfig(c) && c.buffers >= 3 && Initial(c, s) && Reaches(c, s, run, t) && i < c.workers == |t.workers|
    requires t.reader == Success && t.workers[i].pc == Finished && Standard(alg) && |c.file| < TWO_64
    ensures digest == Digest(alg, c.file)
  {
    hide Reaches, Flatten, Digest;
    SuccessWhole(c, s, run, t, i);
    digest := HashChunks(alg, t.workers[i].chunks, accelerated);
  }
}
