/** The reader and the hash workers always get on: no deadlock, a bound on the steps of every run,
    and the two runs that show what the third buffer and the missing exit-code test are for. */
module HashProgress {
  import opened Arithmetic
  import opened HashStream
  import opened HashProtocol

  /** Steps that are somebody's work, as opposed to failures and to the writes of a read in flight. */
  predicate Work(a: Action)
  {
    a.ReaderStep? || a.Complete? || a.WorkerStep?
  }

  predicate Failure(a: Action)
  {
    a.Abort? || a.WorkerFail?
  }

  // ----- No deadlock -----

  lemma ReadCanEnd(c: Config, s: State) returns (a: Action)
    requires Inv(c, s) && s.io.Pending?
    ensures Work(a) && Enabled(c, s, a)
  {
    var left := |c.file| - s.offset;
    var n := if left < c.size then left else c.size;
    var data := c.file[s.offset..s.offset + n] + Zeros(c.size - n);
    assert data[..n] == c.file[s.offset..s.offset + n];
    a := Complete(n, data);
  }

  /** A worker that has neither announced itself nor failed can move, until the log has ended. */
  lemma WorkerCanMove(c: Config, s: State, i: nat)
    requires Inv(c, s) && i < c.workers && s.workers[i].pc != Failed
    requires (s.reader == WaitReady && !s.threadReady[i]) || (s.reader == Join && !Exited(s.workers[i]))
    ensures WorkerEnabled(c, s, i)
  {
    hide Slot, LastStored;
    assert WorkerOk(c, s.log, s.dispatched, HoldOf(s.reader, i), s.threadReady[i], s.dataReady[i], s.workers[i]);
  }

  /** Unless something failed, somebody can work until the reader has succeeded. */
  lemma NoDeadlock(c: Config, s: State) returns (a: Action)
    requires Inv(c, s) && !s.aborted && s.reader != Success
    requires forall i :: 0 <= i < c.workers ==> s.workers[i].pc != Failed
    ensures Work(a) && Enabled(c, s, a)
  {
    hide Slot, LastStored, WorkersOk, LogOk;
    a := ReaderStep;
    if s.io.Pending? {
      a := ReadCanEnd(c, s);
    } else if s.reader == WaitReady && exists i :: 0 <= i < c.workers && !s.threadReady[i] {
      var i: nat :| i < c.workers && !s.threadReady[i];
      WorkerCanMove(c, s, i);
      a := WorkerStep(i);
    } else if s.reader == Join && exists i :: 0 <= i < c.workers && !Exited(s.workers[i]) {
      var i: nat :| i < c.workers && !Exited(s.workers[i]);
      WorkerCanMove(c, s, i);
      a := WorkerStep(i);
    }
  }

  // ----- The work left -----

  /** The steps a worker may still take, given the bytes it has not absorbed. */
  function PcRank(left: int, pc: WorkerPc): int
  {
    match pc
    case Announce => 6 * left + 4
    case Waiting => 6 * left + 3
    case Awake => 6 * left + 2
    case Fetch => 6 * left + 1
    case Hashing(_, _, got) => 6 * left - |got|
    case Finished => 0
    case Failed => 0
  }

  function WorkerRank(c: Config, w: Worker): int
  {
    PcRank(|c.file| - |Flatten(w.chunks)|, w.pc)
  }

  function WorkersRank(c: Config, ws: seq<Worker>): int
  {
    if ws == [] then 0 else WorkersRank(c, ws[..|ws| - 1]) + WorkerRank(c, ws[|ws| - 1])
  }

  lemma {:induction false} WorkersRankUpdate(c: Config, ws: seq<Worker>, i: nat, w: Worker)
    requires i < |ws|
    ensures WorkersRank(c, ws[i := w]) == WorkersRank(c, ws) - WorkerRank(c, ws[i]) + WorkerRank(c, w)
  {
    hide WorkerRank;
    var n := |ws| - 1;
    if i == n {
      assert ws[i := w][..n] == ws[..n];
    } else {
      assert ws[i := w][..n] == ws[..n][i := w];
      WorkersRankUpdate(c, ws[..n], i, w);
    }
  }

  /** The reads still to be waited for, the empty one included. */
  function Rounds(c: Config, s: State): int
  {
    if Ended(s.log) then 0 else |c.file| - s.offset + 1
  }

  function StageRank(c: Config, r: ReaderPc): int
  {
    match r
    case Setup => 4
    case Advance => c.workers + 8
    case Launch => c.workers + 7
    case WaitReady => c.workers + 5
    case SetProc => c.workers + 4
    case Signal(k) => c.workers + 3 - k
    case Loop => 2
    case WaitRead => 1
    case Join => 1
    case Success => 0
  }

  function ReaderRank(c: Config, s: State): int
  {
    Rounds(c, s) * (c.workers + 8) + StageRank(c, s.reader) + if s.io.Pending? then 1 else 0
  }

  function Rank(c: Config, s: State): int
  {
    ReaderRank(c, s) + WorkersRank(c, s.workers)
  }

  lemma RoundsDrop(a: int, b: int, k: nat)
    requires a <= b - 1
    ensures a * k + k <= b * k
  {
    var d: nat := b - a - 1;
    assert b == a + 1 + d;
    Scaled(a, 1 + d, k);
    Scaled(1, d, k);
    assert d * k >= 0;
  }

  lemma Scaled(a: int, b: int, k: int)
    ensures (a + b) * k == a * k + b * k
  {
  }

  lemma ReaderRankDrops(c: Config, s: State)
    requires Inv(c, s) && ReaderEnabled(c, s)
    ensures ReaderRank(c, ReaderDo(c, s)) < ReaderRank(c, s)
    ensures ReaderDo(c, s).workers == s.workers
  {
    hide Slot, LastStored, WorkersOk, Flatten;
    var t := ReaderDo(c, s);
    if s.reader == WaitRead {
      RoundsDrop(Rounds(c, t), Rounds(c, s), c.workers + 8);
    } else {
      assert Rounds(c, t) == Rounds(c, s);
    }
  }

  /** What a worker hashes is part of what it has left. */
  lemma LeftToHash(c: Config, s: State, i: nat)
    requires Inv(c, s) && i < c.workers
    ensures |Flatten(s.workers[i].chunks)| <= |c.file|
    ensures s.workers[i].pc.Hashing? ==>
      |s.workers[i].pc.got| <= s.workers[i].pc.count &&
        0 < s.workers[i].pc.count <= |c.file| - |Flatten(s.workers[i].chunks)|
  {
    hide Slot, LastStored, Flatten;
    var w := s.workers[i];
    assert WorkerOk(c, s.log, s.dispatched, HoldOf(s.reader, i), s.threadReady[i], s.dataReady[i], w);
    FlattenPrefix(s.log, |w.chunks|);
    if w.pc.Hashing? {
      FlattenPrefix(s.log, |w.chunks| + 1);
      assert s.log[..|w.chunks|] + [s.log[|w.chunks|]] == s.log[..|w.chunks| + 1];
      FlattenLast(s.log[..|w.chunks|], s.log[|w.chunks|]);
    }
  }

  lemma {:induction false} FlattenPrefix(chunks: seq<seq<byte>>, k: nat)
    requires k <= |chunks|
    ensures |Flatten(chunks[..k])| <= |Flatten(chunks)|
  {
    if k == |chunks| {
      assert chunks[..k] == chunks;
    } else {
      FlattenPrefix(chunks[..|chunks| - 1], k);
      assert chunks[..|chunks| - 1][..k] == chunks[..k];
    }
  }

  lemma WorkerRankDrops(c: Config, s: State, i: nat)
    requires Inv(c, s) && i < c.workers && WorkerEnabled(c, s, i)
    ensures WorkerRank(c, WorkerDo(c, s, i).workers[i]) < WorkerRank(c, s.workers[i])
  {
    hide Slot, LastStored, Flatten, WorkersOk, ReaderOk, IoOk, LogOk;
    LeftToHash(c, s, i);
    var w := s.workers[i];
    if w.pc.Hashing? {
      FlattenLast(w.chunks, w.pc.got);
    }
  }

  /** Every step of work uses up some of what is left, and no other step adds to it. */
  lemma RankStep(c: Config, s: State, a: Action)
    requires Inv(c, s) && Enabled(c, s, a)
    ensures Rank(c, Do(c, s, a)) <= Rank(c, s) - if Work(a) then 1 else 0
  {
    hide Slot, LastStored, WorkersOk, ReaderOk, IoOk, LogOk, WorkersRank, WorkerRank;
    match a
    case ReaderStep => ReaderRankDrops(c, s);
    case WorkerStep(i) =>
      WorkerRankDrops(c, s, i);
      WorkersRankUpdate(c, s.workers, i, WorkerDo(c, s, i).workers[i]);
    case WorkerFail(i) =>
      FailRank(c, s, i);
      WorkersRankUpdate(c, s.workers, i, s.workers[i].(pc := Failed));
    case Abort =>
    case Scribble(_) =>
    case Complete(_, _) =>
  }

  lemma FailRank(c: Config, s: State, i: nat)
    requires Inv(c, s) && Enabled(c, s, WorkerFail(i))
    ensures WorkerRank(c, s.workers[i].(pc := Failed)) <= WorkerRank(c, s.workers[i])
  {
    hide Slot, LastStored, WorkersOk, ReaderOk, IoOk, LogOk;
    LeftToHash(c, s, i);
  }

  lemma {:induction false} WorkersRankNat(c: Config, s: State, k: nat)
    requires Inv(c, s) && k <= c.workers
    ensures WorkersRank(c, s.workers[..k]) >= 0
  {
    hide Slot, LastStored, WorkersOk, ReaderOk, IoOk, LogOk;
    if k > 0 {
      WorkersRankNat(c, s, k - 1);
      assert s.workers[..k][..k - 1] == s.workers[..k - 1];
      LeftToHash(c, s, k - 1);
    }
  }

  lemma RankNat(c: Config, s: State)
    requires Inv(c, s)
    ensures Rank(c, s) >= 0
  {
    hide LastStored, WorkersOk, WorkersRank, Slot, Flatten;
    WorkersRankNat(c, s, c.workers);
    assert s.workers[..c.workers] == s.workers;
    assert Rounds(c, s) * (c.workers + 8) >= 0;
  }

  function WorkSteps(run: seq<Action>): nat
  {
    if run == [] then 0 else (if Work(run[0]) then 1 else 0) + WorkSteps(run[1..])
  }

  lemma {:induction false} RunRank(c: Config, s: State, run: seq<Action>, t: State)
    requires Inv(c, s) && c.buffers >= 3 && Reaches(c, s, run, t)
    ensures Rank(c, t) + WorkSteps(run) <= Rank(c, s)
    decreases |run|
  {
    hide Rank;
    if run != [] {
      StepInv(c, s, run[0]);
      RankStep(c, s, run[0]);
      RunRank(c, Do(c, s, run[0]), run[1..], t);
    }
  }

  lemma {:induction false} InitialWorkersRank(c: Config, ws: seq<Worker>)
    requires forall i :: 0 <= i < |ws| ==> ws[i] == Worker(Announce, [])
    ensures WorkersRank(c, ws) == |ws| * (6 * |c.file| + 4)
  {
    if ws != [] {
      InitialWorkersRank(c, ws[..|ws| - 1]);
    }
  }

  /** The steps of a whole run, at most. */
  function WorkBound(c: Config): int
  {
    (|c.file| + 1) * (c.workers + 8) + 4 + c.workers * (6 * |c.file| + 4)
  }

  /** Every run has a bounded number of steps of work; and a run in which nothing fails, once nobody
      has work left, has succeeded, with every worker at the end of the whole file. */
  lemma EveryRunEnds(c: Config, s: State, run: seq<Action>, t: State)
    requires ValidConfig(c) && c.buffers >= 3 && Initial(c, s) && Reaches(c, s, run, t)
    ensures WorkSteps(run) <= WorkBound(c)
    ensures Shaped(c, t)
    ensures
      (forall a :: a in run ==> !Failure(a)) && (forall a :: Work(a) ==> !Enabled(c, t, a)) ==>
        && t.reader == Success
        && forall i :: 0 <= i < c.workers ==> t.workers[i].pc == Finished && Flatten(t.workers[i].chunks) == c.file
  {
    hide LastStored, WorkersOk, WorkersRank, Slot, Flatten;
    InitialInv(c, s);
    RunInv(c, s, run, t);
    RunRank(c, s, run, t);
    RankNat(c, t);
    InitialWorkersRank(c, s.workers);
    if (forall a :: a in run ==> !Failure(a)) && (forall a :: Work(a) ==> !Enabled(c, t, a)) {
      NotAborted(c, s, run, t);
      forall i | 0 <= i < c.workers ensures t.workers[i].pc != Failed {
        FailedBy(c, s, run, t, i);
        assert Failure(WorkerFail(i));
      }
      if t.reader != Success {
        var a := NoDeadlock(c, t);
        assert false;
      }
      forall i | 0 <= i < c.workers ensures t.workers[i].pc == Finished && Flatten(t.workers[i].chunks) == c.file {
        SuccessMeans(c, t, i);
      }
    }
  }

  lemma {:induction false} NotAborted(c: Config, s: State, run: seq<Action>, t: State)
    requires ValidConfig(c) && Reaches(c, s, run, t) && !s.aborted && forall a :: a in run ==> !Failure(a)
    ensures !t.aborted
    decreases |run|
  {
    hide Shaped;
    if run != [] {
      AbortedStep(c, s, run[0]);
      assert run[0] in run && run == [run[0]] + run[1..];
      NotAborted(c, Do(c, s, run[0]), run[1..], t);
    }
  }

  lemma AbortedStep(c: Config, s: State, a: Action)
    requires ValidConfig(c) && Shaped(c, s) && Enabled(c, s, a)
    ensures Do(c, s, a).aborted == (s.aborted || a == Abort)
  {
  }

  // ----- Two runs -----

  lemma {:induction false} ReachMore(c: Config, s: State, run: seq<Action>, t: State, a: Action)
    requires ValidConfig(c) && Reaches(c, s, run, t) && Shaped(c, t) && Enabled(c, t, a)
    ensures Reaches(c, s, run + [a], Do(c, t, a))
    decreases |run|
  {
    hide Shaped;
    if run != [] {
      ReachMore(c, Do(c, s, run[0]), run[1..], t, a);
      assert (run + [a])[1..] == run[1..] + [a];
    }
  }

  /** The run so far, taken one step further. */
  lemma Go(c: Config, s: State, run: seq<Action>, t: State, a: Action, next: State) returns (longer: seq<Action>)
    requires ValidConfig(c) && Reaches(c, s, run, t) && Shaped(c, t) && Enabled(c, t, a) && next == Do(c, t, a)
    ensures Reaches(c, s, longer, next) && longer == run + [a]
  {
    hide Shaped, Enabled;
    ReachMore(c, s, run, t, a);
    longer := run + [a];
  }

  lemma ReachesSelf(c: Config, s: State)
    requires ValidConfig(c)
    ensures Reaches(c, s, [], s)
  {
  }

  /** One worker and buffers of one byte. */
  function Small(buffers: seq<seq<byte>>, sizes: seq<nat>, readBuf: nat, proc: nat, io: Io, offset: nat, r: ReaderPc,
                 dr: bool, tr: bool, w: Worker, log: seq<seq<byte>>, d: nat): State
  {
    State(buffers, sizes, readBuf, proc, io, offset, r, false, [dr], [tr], [w], log, d)
  }

  function Late(): Config { Config([], 1, 3, 1) }

  function LateStart(): State
  {
    Small([[0], [0], [0]], [0, 0, 0], 0, 0, Idle, 0, Setup, false, false, Worker(Announce, []), [], 0)
  }

  function LateMiddle(): State
  {
    Small([[0], [0], [0]], [0, 1, 0], 1, 1, Pending(1), 0, WaitReady, false, false, Worker(Announce, []), [[]], 0)
  }

  lemma LateFirst() returns (run: seq<Action>)
    ensures Reaches(Late(), LateStart(), run, LateMiddle())
  {
    hide Reaches;
    var c, s := Late(), LateStart();
    var s1 := s.(readBuf := 0, proc := 1, sizes := [0, 1, 0], io := Pending(0), reader := Loop);
    ReachesSelf(c, s);
    run := Go(c, s, [], s, ReaderStep, s1);
    var s2 := s1.(io := Done(0));
    run := Go(c, s, run, s1, Complete(0, [0]), s2);
    var s3 := s2.(reader := WaitRead);
    run := Go(c, s, run, s2, ReaderStep, s3);
    var s4 := s3.(reader := Advance, io := Idle, log := [[]]);
    run := Go(c, s, run, s3, ReaderStep, s4);
    var s5 := s4.(reader := Launch, readBuf := 1);
    run := Go(c, s, run, s4, ReaderStep, s5);
    run := Go(c, s, run, s5, ReaderStep, LateMiddle());
  }

  /** A worker that times out before the last hand-over: the reader still succeeds, and the digest was
      never produced. */
  lemma TimeoutUnnoticed() returns (run: seq<Action>, t: State)
    ensures Initial(Late(), LateStart()) && Reaches(Late(), LateStart(), run, t) && t.reader == Success
    ensures |t.workers| == 1 && t.workers[0].pc != Finished
  {
    hide Reaches;
    var c, s, s6 := Late(), LateStart(), LateMiddle();
    run := LateFirst();
    var s7 := s6.(threadReady := [true], workers := [Worker(Waiting, [])]);
    run := Go(c, s, run, s6, WorkerStep(0), s7);
    var s8 := s7.(workers := [Worker(Failed, [])]);
    run := Go(c, s, run, s7, WorkerFail(0), s8);
    var s9 := s8.(threadReady := [false], reader := SetProc);
    run := Go(c, s, run, s8, ReaderStep, s9);
    var s10 := s9.(proc := 0, dispatched := 1, reader := Signal(0));
    run := Go(c, s, run, s9, ReaderStep, s10);
    var s11 := s10.(dataReady := [true], reader := Signal(1));
    run := Go(c, s, run, s10, ReaderStep, s11);
    var s12 := s11.(reader := Loop);
    run := Go(c, s, run, s11, ReaderStep, s12);
    var s13 := s12.(reader := Join);
    run := Go(c, s, run, s12, ReaderStep, s13);
    t := s13.(reader := Success);
    run := Go(c, s, run, s13, ReaderStep, t);
  }

  function Double(): Config { Config([1, 2], 1, 2, 1) }

  function DoubleStart(): State
  {
    Small([[0], [0]], [0, 0], 0, 0, Idle, 0, Setup, false, false, Worker(Announce, []), [], 0)
  }

  function DoubleRead(): State
  {
    Small([[1], [0]], [1, 1], 1, 1, Pending(1), 1, WaitReady, false, false, Worker(Announce, []), [[1]], 0)
  }

  function DoubleHanded(): State
  {
    Small([[1], [0]], [1, 1], 1, 0, Pending(1), 1, Loop, false, false, Worker(Hashing(0, 1, []), []), [[1]], 1)
  }

  function DoubleLoop(): State
  {
    DoubleStart().(readBuf := 0, proc := 1, sizes := [0, 1], io := Pending(0), reader := Loop)
  }

  lemma DoubleLaunch() returns (run: seq<Action>)
    ensures Reaches(Double(), DoubleStart(), run, DoubleLoop())
  {
    hide Reaches;
    ReachesSelf(Double(), DoubleStart());
    run := Go(Double(), DoubleStart(), [], DoubleStart(), ReaderStep, DoubleLoop());
  }

  lemma DoubleFilled() returns (run: seq<Action>)
    ensures
      Reaches(Double(), DoubleStart(), run, DoubleLoop().(buffers := [[1], [0]], io := Done(1), reader := WaitRead))
  {
    hide Reaches;
    var c, s, s1 := Double(), DoubleStart(), DoubleLoop();
    run := DoubleLaunch();
    var s2 := s1.(buffers := [[1], [0]], io := Done(1));
    run := Go(c, s, run, s1, Complete(1, [1]), s2);
    run := Go(c, s, run, s2, ReaderStep, s2.(reader := WaitRead));
  }

  lemma DoubleGot(s: State)
    requires s.buffers == [[1], [0]] && s.sizes == [0, 1] && s.readBuf == 0 && s.offset == 0 && s.log == []
    ensures GotRead(s, 1) == s.(sizes := [1, 1], io := Idle, offset := 1, log := [[1]], reader := Advance)
  {
    var chunk: seq<byte> := [1];
    assert s.buffers[0][..1] == chunk && s.log + [chunk] == [chunk] && s.sizes[0 := 1] == [1, 1];
  }

  lemma DoubleAdvance() returns (run: seq<Action>)
    ensures Reaches(Double(), DoubleStart(), run, DoubleRead().(io := Idle, reader := Launch))
  {
    hide Reaches, GotRead;
    var c, s := Double(), DoubleStart();
    var s3 := DoubleLoop().(buffers := [[1], [0]], io := Done(1), reader := WaitRead);
    run := DoubleFilled();
    DoubleGot(s3);
    var s4 := s3.(sizes := [1, 1], io := Idle, offset := 1, log := [[1]], reader := Advance);
    run := Go(c, s, run, s3, ReaderStep, s4);
    run := Go(c, s, run, s4, ReaderStep, s4.(readBuf := 1, reader := Launch));
  }

  lemma DoubleFirst() returns (run: seq<Action>)
    ensures Reaches(Double(), DoubleStart(), run, DoubleRead())
  {
    hide Reaches;
    var s5 := DoubleRead().(io := Idle, reader := Launch);
    run := DoubleAdvance();
    run := Go(Double(), DoubleStart(), run, s5, ReaderStep, DoubleRead());
  }

  /** The worker announces itself and the reader sets the buffer to process. */
  lemma DoubleReady(run0: seq<Action>) returns (run: seq<Action>)
    requires Reaches(Double(), DoubleStart(), run0, DoubleRead())
    ensures Reaches(Double(), DoubleStart(), run, DoubleSignal())
  {
    hide Reaches;
    var c, s, s6 := Double(), DoubleStart(), DoubleRead();
    var s7 := s6.(threadReady := [true], workers := [Worker(Waiting, [])]);
    run := Go(c, s, run0, s6, WorkerStep(0), s7);
    var s8 := s7.(threadReady := [false], reader := SetProc);
    run := Go(c, s, run, s7, ReaderStep, s8);
    run := Go(c, s, run, s8, ReaderStep, DoubleSignal());
  }

  function DoubleSignal(): State
  {
    DoubleRead().(workers := [Worker(Waiting, [])], proc := 0, dispatched := 1, reader := Signal(0))
  }

  function DoubleAwake(): State
  {
    DoubleSignal().(reader := Signal(1), workers := [Worker(Awake, [])])
  }

  /** The worker is given the data. */
  lemma DoubleGiven(run0: seq<Action>) returns (run: seq<Action>)
    requires Reaches(Double(), DoubleStart(), run0, DoubleSignal())
    ensures Reaches(Double(), DoubleStart(), run, DoubleAwake())
  {
    hide Reaches;
    var c, s, s9 := Double(), DoubleStart(), DoubleSignal();
    var s10 := s9.(dataReady := [true], reader := Signal(1));
    assert s9.dataReady[0 := true] == [true];
    run := Go(c, s, run0, s9, ReaderStep, s10);
    assert s10.dataReady[0 := false] == [false] && s10.workers[0 := Worker(Awake, [])] == [Worker(Awake, [])];
    run := Go(c, s, run, s10, WorkerStep(0), DoubleAwake());
  }

  lemma DoubleSecond(run0: seq<Action>) returns (run: seq<Action>)
    requires Reaches(Double(), DoubleStart(), run0, DoubleRead())
    ensures Reaches(Double(), DoubleStart(), run, DoubleHanded())
  {
    hide Reaches;
    var c, s, s11 := Double(), DoubleStart(), DoubleAwake();
    run := DoubleReady(run0);
    run := DoubleGiven(run);
    var s12 := s11.(workers := [Worker(Fetch, [])]);
    run := Go(c, s, run, s11, WorkerStep(0), s12);
    var s13 := s12.(workers := [Worker(Hashing(0, 1, []), [])]);
    run := Go(c, s, run, s12, WorkerStep(0), s13);
    run := Go(c, s, run, s13, ReaderStep, DoubleHanded());
  }

  function DoubleAgain(): State
  {
    Small([[1], [2]], [1, 1], 0, 0, Pending(0), 2, WaitReady, false, false, Worker(Hashing(0, 1, []), []),
          [[1], [2]], 1)
  }

  lemma DoubleThird(run0: seq<Action>) returns (run: seq<Action>)
    requires Reaches(Double(), DoubleStart(), run0, DoubleHanded())
    ensures Reaches(Double(), DoubleStart(), run, DoubleAgain())
  {
    hide Reaches;
    var c, s, s14 := Double(), DoubleStart(), DoubleHanded();
    run := run0;
    var s15 := s14.(buffers := [[1], [2]], io := Done(1));
    run := Go(c, s, run, s14, Complete(1, [2]), s15);
    var s16 := s15.(reader := WaitRead);
    run := Go(c, s, run, s15, ReaderStep, s16);
    assert s16.buffers[1][..1] == [2];
    var s17 := s16.(io := Idle, offset := 2, log := [[1], [2]], reader := Advance);
    run := Go(c, s, run, s16, ReaderStep, s17);
    var s18 := s17.(readBuf := 0, reader := Launch);
    run := Go(c, s, run, s17, ReaderStep, s18);
    run := Go(c, s, run, s18, ReaderStep, DoubleAgain());
  }

  lemma DoubleReadAgain() returns (run: seq<Action>)
    ensures Reaches(Double(), DoubleStart(), run, DoubleAgain().(buffers := [[9], [2]]))
  {
    hide Reaches;
    run := DoubleFirst();
    run := DoubleSecond(run);
    run := DoubleThird(run);
    var s20 := DoubleAgain().(buffers := [[9], [2]]);
    run := Go(Double(), DoubleStart(), run, DoubleAgain(), Scribble([9]), s20);
  }

  /** With two buffers, a worker hashes bytes the next read has overwritten: they are not the file's. */
  lemma TwoBuffersRace() returns (run: seq<Action>, t: State)
    ensures Initial(Double(), DoubleStart()) && Reaches(Double(), DoubleStart(), run, t)
    ensures |t.workers| == 1 && t.workers[0].chunks == [[9]] && t.io.Pending? && t.proc == t.io.target
  {
    hide Reaches;
    var c, s := Double(), DoubleStart();
    var s20 := DoubleAgain().(buffers := [[9], [2]]);
    run := DoubleReadAgain();
    var none: seq<byte>, got: seq<byte>, before: seq<seq<byte>> := [], [9], [];
    assert none + [ByteAt(got, 0)] == got && before + [got] == [got];
    var s21 := s20.(workers := [Worker(Hashing(0, 1, got), [])]);
    run := Go(c, s, run, s20, WorkerStep(0), s21);
    t := s21.(workers := [Worker(Announce, [got])]);
    run := Go(c, s, run, s21, WorkerStep(0), t);
  }
}
