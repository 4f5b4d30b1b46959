/** The write and read scans of the bad-block test (src/badblocks.c:465-560) as runs of transfers: where
    each transfer leaves the scan, what a whole run leaves written, compared, skipped and listed. */
module BadBlocksScan {
  import opened Wrappers
  import opened Arithmetic
  import opened BadBlocksPattern
  import opened BadBlocksDevice
  import opened BadBlocksContents

  const MAX_BAD: nat := 256
  /** recover_block when no recovery is under way. */
  const NONE: nat := 0xFFFF_FFFF_FFFF_FFFF

  /** Where a scan stands: currently_testing, tryout and recover_block; the blocks that failed a transfer
      of their own, and those found different; the last contents written and read. */
  datatype Scan = Scan(cur: nat, size: nat, recover: nat, dead: set<nat>, corrupt: set<nat>,
                       written: map<nat, Block>, seen: map<nat, Block>)

  /** The block that could not be transferred on its own, if any. */
  function Lone(cur: nat, got: nat, n: nat): set<nat>
  {
    if got == 0 && n == 1 then {cur} else {}
  }

  /** What both scans do after a transfer that gave `got` of `n` blocks. */
  function Settled(s: Scan, got: nat, n: nat, atOnce: nat): Scan
  {
    var next := s.cur + if got == 0 && n == 1 then 1 else got;
    s.(cur := next, dead := s.dead + Lone(s.cur, got, n),
       size := if got != n then 1 else if next == s.recover then atOnce else n,
       recover := if got != n then (if s.recover == NONE then next - got + atOnce else s.recover)
                  else if next == s.recover then NONE else s.recover)
  }

  /** Fewer bad blocks than the threshold. */
  predicate Below(dead: set<nat>, corrupt: set<nat>)
  {
    |dead + corrupt| < MAX_BAD
  }

  /** The transfer that a scan makes next, while the threshold is not reached. */
  ghost predicate Made(s: Scan, t: Transfer, last: nat, atOnce: nat)
  {
    && s.cur < last && 0 < s.size <= atOnce && Below(s.dead, s.corrupt)
    && t.first == s.cur && t.n == Min(s.size, last - s.cur) && |t.data| <= t.n
  }

  // ----- The write scan -----

  ghost predicate Writes(base: seq<Block>, st: Stamping, last: nat, s: Scan, t: Transfer)
    requires Slotted(base, st)
  {
    Made(s, t, last, |base|) && t.data == Chunk(base, st, s.cur, |t.data|)
  }

  function Wrote(s: Scan, t: Transfer, atOnce: nat): Scan
  {
    Settled(s, |t.data|, t.n, atOnce).(written := Noted(s.written, s.cur, t.data))
  }

  /** Where a run of writes leads. */
  ghost function RunWrites(base: seq<Block>, st: Stamping, last: nat, s: Scan, log: seq<Transfer>): Option<Scan>
    requires Slotted(base, st)
    decreases |log|
  {
    if log == [] then Some(s)
    else
      var k := |log| - 1;
      match RunWrites(base, st, last, s, log[..k])
      case None => None
      case Some(m) => if Writes(base, st, last, m, log[k]) then Some(Wrote(m, log[k], |base|)) else None
  }

  // ----- The read scan -----

  /** The blocks that differ from the buffer. */
  ghost function Found(base: seq<Block>, st: Stamping, cur: nat, data: seq<Block>): set<nat>
    requires Slotted(base, st) && |data| <= |base|
  {
    Differing(data, Chunk(base, st, cur, |data|), cur)
  }

  /** Only a transfer that gave all it was asked for is compared. */
  ghost function Read(base: seq<Block>, st: Stamping, s: Scan, t: Transfer): Scan
    requires Slotted(base, st) && t.n <= |base| && |t.data| <= t.n
  {
    Settled(s, |t.data|, t.n, |base|).(
      seen := Noted(s.seen, s.cur, t.data),
      corrupt := if |t.data| == t.n then s.corrupt + Found(base, st, s.cur, t.data) else s.corrupt)
  }

  ghost function RunReads(base: seq<Block>, st: Stamping, last: nat, s: Scan, log: seq<Transfer>): Option<Scan>
    requires Slotted(base, st)
    decreases |log|
  {
    if log == [] then Some(s)
    else
      var k := |log| - 1;
      match RunReads(base, st, last, s, log[..k])
      case None => None
      case Some(m) => if Made(m, log[k], last, |base|) then Some(Read(base, st, m, log[k])) else None
  }

  lemma WritesMore(base: seq<Block>, st: Stamping, last: nat, s: Scan, log: seq<Transfer>, m: Scan, t: Transfer)
    requires Slotted(base, st) && RunWrites(base, st, last, s, log) == Some(m) && Writes(base, st, last, m, t)
    ensures RunWrites(base, st, last, s, log + [t]) == Some(Wrote(m, t, |base|))
  {
    assert (log + [t])[..|log|] == log;
  }

  lemma ReadsMore(base: seq<Block>, st: Stamping, last: nat, s: Scan, log: seq<Transfer>, m: Scan, t: Transfer)
    requires Slotted(base, st) && RunReads(base, st, last, s, log) == Some(m) && Made(m, t, last, |base|)
    ensures RunReads(base, st, last, s, log + [t]) == Some(Read(base, st, m, t))
  {
    assert (log + [t])[..|log|] == log;
  }

  /** The last step of a run. */
  lemma LastWrite(base: seq<Block>, st: Stamping, last: nat, s: Scan, log: seq<Transfer>) returns (m: Scan)
    requires Slotted(base, st) && log != [] && RunWrites(base, st, last, s, log).Some?
    ensures RunWrites(base, st, last, s, log[..|log| - 1]) == Some(m) && Writes(base, st, last, m, log[|log| - 1])
    ensures RunWrites(base, st, last, s, log) == Some(Wrote(m, log[|log| - 1], |base|))
  {
    m := RunWrites(base, st, last, s, log[..|log| - 1]).value;
  }

  lemma LastRead(base: seq<Block>, st: Stamping, last: nat, s: Scan, log: seq<Transfer>) returns (m: Scan)
    requires Slotted(base, st) && log != [] && RunReads(base, st, last, s, log).Some?
    ensures RunReads(base, st, last, s, log[..|log| - 1]) == Some(m) && Made(m, log[|log| - 1], last, |base|)
    ensures RunReads(base, st, last, s, log) == Some(Read(base, st, m, log[|log| - 1]))
  {
    m := RunReads(base, st, last, s, log[..|log| - 1]).value;
  }

  // ----- What a run of writes leaves -----

  /** Every block passed is dead or was last written with contents of the pass. */
  ghost predicate WrittenOrDead(base: seq<Block>, st: Stamping, first: nat, s: Scan)
    requires Slotted(base, st)
  {
    forall b :: first <= b < s.cur ==> b in s.dead || (b in s.written && FromBuffer(base, st, b, s.written[b]))
  }

  lemma WroteFromBuffer(base: seq<Block>, st: Stamping, last: nat, first: nat, s: Scan, t: Transfer)
    requires Slotted(base, st) && Writes(base, st, last, s, t) && WrittenOrDead(base, st, first, s)
    ensures WrittenOrDead(base, st, first, Wrote(s, t, |base|))
  {
    hide Content, FromBuffer, Chunk;
    var m := Wrote(s, t, |base|);
    forall b | first <= b < m.cur ensures b in m.dead || (b in m.written && FromBuffer(base, st, b, m.written[b])) {
      if s.cur <= b < s.cur + |t.data| { ChunkAt(base, st, s.cur, |t.data|, b); }
    }
  }

  lemma ChunkAt(base: seq<Block>, st: Stamping, cur: nat, n: nat, b: nat)
    requires Slotted(base, st) && n <= |base| && cur <= b < cur + n
    ensures |Chunk(base, st, cur, n)| == n && Chunk(base, st, cur, n)[b - cur] == Content(base[b - cur], st, b)
    ensures FromBuffer(base, st, b, Chunk(base, st, cur, n)[b - cur])
  {
    hide Content;
    assert Chunk(base, st, cur, n)[b - cur] == Content(base[b - cur], st, cur + (b - cur));
  }

  /** A run of writes goes forward, keeps what was found before, and leaves every block it passed dead or
      written with contents of the pass. */
  lemma {:induction false} WritesLeave(base: seq<Block>, st: Stamping, last: nat, s: Scan, log: seq<Transfer>)
    requires Slotted(base, st) && RunWrites(base, st, last, s, log).Some? && s.cur <= last
    ensures
      var t := RunWrites(base, st, last, s, log).value;
      && s.cur <= t.cur <= last && s.dead <= t.dead && t.corrupt == s.corrupt && t.seen == s.seen
      && WrittenOrDead(base, st, s.cur, t)
    decreases |log|
  {
    hide Writes, Wrote, WrittenOrDead;
    if log == [] {
      NothingWritten(base, st, s);
    } else {
      var m := LastWrite(base, st, last, s, log);
      WritesLeave(base, st, last, s, log[..|log| - 1]);
      WroteFromBuffer(base, st, last, s.cur, m, log[|log| - 1]);
      WriteMoves(base, st, last, m, log[|log| - 1]);
    }
  }

  lemma NothingWritten(base: seq<Block>, st: Stamping, s: Scan)
    requires Slotted(base, st)
    ensures WrittenOrDead(base, st, s.cur, s)
  {
  }

  lemma WriteMoves(base: seq<Block>, st: Stamping, last: nat, s: Scan, t: Transfer)
    requires Slotted(base, st) && Writes(base, st, last, s, t)
    ensures
      var m := Wrote(s, t, |base|);
      s.cur <= m.cur <= last && s.dead <= m.dead && m.corrupt == s.corrupt && m.seen == s.seen
  {
  }

  // ----- What a run of reads leaves -----

  /** The blocks given by short reads, which are not compared. */
  ghost function ShortOf(log: seq<Transfer>): set<nat>
    decreases |log|
  {
    if log == [] then {}
    else
      var t := log[|log| - 1];
      ShortOf(log[..|log| - 1]) + if |t.data| < t.n then Range(t.first, t.first + |t.data|) else {}
  }

  /** The blocks that were compared. */
  ghost function ComparedOf(log: seq<Transfer>): set<nat>
    decreases |log|
  {
    if log == [] then {}
    else
      var t := log[|log| - 1];
      ComparedOf(log[..|log| - 1]) + if |t.data| == t.n then Range(t.first, t.first + t.n) else {}
  }

  /** The blocks that could not be read on their own. */
  ghost function LoneOf(log: seq<Transfer>): set<nat>
    decreases |log|
  {
    if log == [] then {}
    else
      var t := log[|log| - 1];
      LoneOf(log[..|log| - 1]) + Lone(t.first, |t.data|, t.n)
  }

  /** A read that gave some of the blocks asked for, but not all. */
  predicate Short(t: Transfer)
  {
    0 < |t.data| < t.n
  }

  lemma {:induction false} ShortExactly(log: seq<Transfer>)
    ensures ShortOf(log) == {} <==> forall i :: 0 <= i < |log| ==> !Short(log[i])
    decreases |log|
  {
    if log != [] {
      var k := |log| - 1;
      ShortExactly(log[..k]);
      var t := log[k];
      if Short(t) { assert t.first in Range(t.first, t.first + |t.data|); }
      assert log == log[..k] + [t];
    }
  }

  // What one transfer adds to the three sets.

  ghost function ShortPart(t: Transfer): set<nat>
  {
    if |t.data| < t.n then Range(t.first, t.first + |t.data|) else {}
  }

  ghost function ComparedPart(t: Transfer): set<nat>
  {
    if |t.data| == t.n then Range(t.first, t.first + t.n) else {}
  }

  lemma ReadMoves(base: seq<Block>, st: Stamping, last: nat, s: Scan, t: Transfer)
    requires Slotted(base, st) && Made(s, t, last, |base|)
    ensures
      var m, lone := Read(base, st, s, t), Lone(t.first, |t.data|, t.n);
      && s.cur <= m.cur <= last && s.corrupt <= m.corrupt && m.written == s.written && m.dead == s.dead + lone
      && Range(s.cur, m.cur) == ComparedPart(t) + lone + ShortPart(t)
      && ComparedPart(t) !! lone && ShortPart(t) !! ComparedPart(t) + lone
  {
    hide Found, Noted;
  }

  lemma RangeJoin(a: nat, b: nat, c: nat)
    requires a <= b <= c
    ensures Range(a, b) + Range(b, c) == Range(a, c) && Range(a, b) !! Range(b, c)
  {
  }

  lemma PartsJoin(r: set<nat>, c: set<nat>, l: set<nat>, s: set<nat>, r': set<nat>, c': set<nat>, l': set<nat>,
                  s': set<nat>)
    requires r == c + l + s && c !! l && s !! c + l && r !! r'
    requires r' == c' + l' + s' && c' !! l' && s' !! c' + l'
    ensures r + r' == (c + c') + (l + l') + (s + s') && c + c' !! l + l' && s + s' !! (c + c') + (l + l')
  {
  }

  lemma LogSets(log: seq<Transfer>)
    requires log != []
    ensures
      var k, t := |log| - 1, log[|log| - 1];
      && ShortOf(log) == ShortOf(log[..k]) + ShortPart(t) && ComparedOf(log) == ComparedOf(log[..k]) + ComparedPart(t)
      && LoneOf(log) == LoneOf(log[..k]) + Lone(t.first, |t.data|, t.n)
  {
  }

  /** The blocks passed are each compared, dead or skipped by a short read, and no two of these. */
  ghost predicate Passed(first: nat, cur: nat, log: seq<Transfer>)
  {
    && Range(first, cur) == ComparedOf(log) + LoneOf(log) + ShortOf(log)
    && ComparedOf(log) !! LoneOf(log) && ShortOf(log) !! ComparedOf(log) + LoneOf(log)
  }

  lemma PassedNext(first: nat, cur: nat, next: nat, log: seq<Transfer>)
    requires log != [] && first <= cur <= next && Passed(first, cur, log[..|log| - 1])
    requires
      var t := log[|log| - 1];
      var lone := Lone(t.first, |t.data|, t.n);
      && Range(cur, next) == ComparedPart(t) + lone + ShortPart(t)
      && ComparedPart(t) !! lone && ShortPart(t) !! ComparedPart(t) + lone
    ensures Passed(first, next, log)
  {
    hide ShortOf, ComparedOf, LoneOf, Range, ShortPart, ComparedPart, Lone;
    var t, before := log[|log| - 1], log[..|log| - 1];
    LogSets(log);
    RangeJoin(first, cur, next);
    PartsJoin(Range(first, cur), ComparedOf(before), LoneOf(before), ShortOf(before),
              Range(cur, next), ComparedPart(t), Lone(t.first, |t.data|, t.n), ShortPart(t));
  }

  lemma PassedNothing(cur: nat)
    ensures Passed(cur, cur, [])
  {
  }

  lemma {:induction false} ReadsPass(base: seq<Block>, st: Stamping, last: nat, s: Scan, log: seq<Transfer>)
    requires Slotted(base, st) && RunReads(base, st, last, s, log).Some? && s.cur <= last
    ensures
      var t := RunReads(base, st, last, s, log).value;
      && s.cur <= t.cur <= last && s.corrupt <= t.corrupt && t.written == s.written && s.dead <= t.dead
      && Passed(s.cur, t.cur, log)
    decreases |log|
  {
    hide Made, Read, Passed, ShortPart, ComparedPart, Lone;
    if log == [] {
      PassedNothing(s.cur);
    } else {
      var k := |log| - 1;
      var m := LastRead(base, st, last, s, log);
      ReadsPass(base, st, last, s, log[..k]);
      MadeThere(m, log[k], last, |base|);
      ReadMoves(base, st, last, m, log[k]);
      PassedNext(s.cur, m.cur, Read(base, st, m, log[k]).cur, log);
    }
  }

  /** All blocks passed are compared or dead exactly when no read was short. */
  lemma AllCompared(base: seq<Block>, st: Stamping, last: nat, s: Scan, log: seq<Transfer>)
    requires Slotted(base, st) && RunReads(base, st, last, s, log).Some? && s.cur <= last
    ensures
      var t := RunReads(base, st, last, s, log).value;
      Range(s.cur, t.cur) <= ComparedOf(log) + LoneOf(log) <==> forall i :: 0 <= i < |log| ==> !Short(log[i])
  {
    hide RunReads, ShortOf, ComparedOf, LoneOf, Range;
    ReadsPass(base, st, last, s, log);
    ShortExactly(log);
    RestEmpty(Range(s.cur, RunReads(base, st, last, s, log).value.cur), ComparedOf(log) + LoneOf(log), ShortOf(log));
  }

  lemma RestEmpty(r: set<nat>, c: set<nat>, rest: set<nat>)
    requires r == c + rest && rest !! c
    ensures r <= c <==> rest == {}
  {
    if rest != {} {
      var x :| x in rest;
      assert x in r && x !in c;
    }
  }

  lemma MadeThere(s: Scan, t: Transfer, last: nat, atOnce: nat)
    requires Made(s, t, last, atOnce)
    ensures t.first == s.cur && |t.data| <= t.n <= atOnce && 0 < t.n
  {
  }

  /** Every block passed is listed, was given by a short read, or was last read with contents of the
      pass. */
  ghost predicate Accounted(base: seq<Block>, st: Stamping, first: nat, s: Scan, skipped: set<nat>)
    requires Slotted(base, st)
  {
    forall b :: first <= b < s.cur ==>
      b in s.dead || b in s.corrupt || b in skipped || (b in s.seen && FromBuffer(base, st, b, s.seen[b]))
  }

  /** The blocks newly found different were passed, and were last read with doubtful contents. */
  ghost predicate Doubtful(base: seq<Block>, st: Stamping, first: nat, before: set<nat>, s: Scan)
    requires Slotted(base, st)
  {
    forall b :: b in s.corrupt && b !in before ==> first <= b < s.cur && b in s.seen && Doubted(base, st, b, s.seen[b])
  }

  /** What a transfer does to the block `b` it gave. */
  lemma BlockRead(base: seq<Block>, st: Stamping, last: nat, s: Scan, t: Transfer, b: nat)
    requires Slotted(base, st) && Made(s, t, last, |base|) && s.cur <= b < s.cur + |t.data|
    ensures
      var m, x := Read(base, st, s, t), t.data[b - s.cur];
      && b in m.seen && m.seen[b] == x && b < m.cur
      && (|t.data| < t.n ==> b in ShortPart(t))
      && (|t.data| == t.n && b !in m.corrupt ==> FromBuffer(base, st, b, x))
      && (b in m.corrupt && b !in s.corrupt ==> |t.data| == t.n && Doubted(base, st, b, x))
  {
    hide Content, Chunk, Settled;
    ChunkAt(base, st, s.cur, t.n, b);
    assert (Settled(s, |t.data|, t.n, |base|).cur > b) by { SettledMoves(s, |t.data|, t.n, |base|); }
  }

  lemma SettledMoves(s: Scan, got: nat, n: nat, atOnce: nat)
    ensures
      var m := Settled(s, got, n, atOnce);
      m.cur == s.cur + (if got == 0 && n == 1 then 1 else got) && m.dead == s.dead + Lone(s.cur, got, n)
  {
  }

  lemma SettledRest(s: Scan, got: nat, n: nat, atOnce: nat)
    ensures
      var m := Settled(s, got, n, atOnce);
      m == Scan(m.cur, m.size, m.recover, s.dead + Lone(s.cur, got, n), s.corrupt, s.written, s.seen)
  {
  }

  lemma ReadAccounts(base: seq<Block>, st: Stamping, last: nat, first: nat, before: set<nat>, s: Scan, t: Transfer,
                     skipped: set<nat>)
    requires Slotted(base, st) && Made(s, t, last, |base|) && first <= s.cur
    requires Accounted(base, st, first, s, skipped) && Doubtful(base, st, first, before, s)
    ensures
      var m := Read(base, st, s, t);
      Accounted(base, st, first, m, skipped + ShortPart(t)) && Doubtful(base, st, first, before, m)
  {
    hide FromBuffer, Doubted, Chunk, Settled, ShortPart;
    var m := Read(base, st, s, t);
    SettledMoves(s, |t.data|, t.n, |base|);
    forall b | first <= b < m.cur
      ensures b in m.dead || b in m.corrupt || b in skipped + ShortPart(t) ||
              (b in m.seen && FromBuffer(base, st, b, m.seen[b]))
    {
      if s.cur <= b < s.cur + |t.data| { BlockRead(base, st, last, s, t, b); }
    }
    forall b | b in m.corrupt && b !in before
      ensures first <= b < m.cur && b in m.seen && Doubted(base, st, b, m.seen[b]) {
      if b !in s.corrupt { BlockRead(base, st, last, s, t, b); }
    }
  }

  /** A run of reads accounts for every block it passes, and finds different only what is doubtful. */
  lemma {:induction false} ReadsAccount(base: seq<Block>, st: Stamping, last: nat, s: Scan, log: seq<Transfer>)
    requires Slotted(base, st) && RunReads(base, st, last, s, log).Some? && s.cur <= last
    ensures
      var t := RunReads(base, st, last, s, log).value;
      Accounted(base, st, s.cur, t, ShortOf(log)) && Doubtful(base, st, s.cur, s.corrupt, t)
    decreases |log|
  {
    hide Made, Read, Accounted, Doubtful, ShortPart;
    if log == [] {
      NothingRead(base, st, s);
    } else {
      var k := |log| - 1;
      var m := LastRead(base, st, last, s, log);
      ReadsPass(base, st, last, s, log[..k]);
      ReadsAccount(base, st, last, s, log[..k]);
      MadeThere(m, log[k], last, |base|);
      ReadAccounts(base, st, last, s.cur, s.corrupt, m, log[k], ShortOf(log[..k]));
      LogSets(log);
    }
  }

  lemma NothingRead(base: seq<Block>, st: Stamping, s: Scan)
    requires Slotted(base, st)
    ensures Accounted(base, st, s.cur, s, ShortOf([])) && Doubtful(base, st, s.cur, s.corrupt, s)
  {
  }

  // ----- Faithful devices -----

  /** The blocks given are as they were last written. */
  ghost predicate Agrees(written: map<nat, Block>, t: Transfer)
  {
    forall i :: 0 <= i < |t.data| && t.first + i in written ==> t.data[i] == written[t.first + i]
  }

  ghost predicate AllAgree(written: map<nat, Block>, log: seq<Transfer>)
  {
    forall k :: 0 <= k < |log| ==> Agrees(written, log[k])
  }

  /** When what comes from the buffer is never doubted, reads that agree with what was written find
      nothing different but in blocks that were not written in this pass. */
  lemma {:induction false} FaithfulReads(base: seq<Block>, st: Stamping, last: nat, s: Scan, log: seq<Transfer>)
    requires Slotted(base, st) && RunReads(base, st, last, s, log).Some? && s.cur <= last && Alike(base)
    requires AllAgree(s.written, log) && s.corrupt <= s.dead
    requires forall b :: s.cur <= b < last ==> b in s.dead || (b in s.written && FromBuffer(base, st, b, s.written[b]))
    ensures RunReads(base, st, last, s, log).value.corrupt <= s.dead
    decreases |log|
  {
    hide Made, Read, FromBuffer, Alike;
    if log != [] {
      var k := |log| - 1;
      var t := log[k];
      var m := LastRead(base, st, last, s, log);
      ReadsPass(base, st, last, s, log[..k]);
      FaithfulReads(base, st, last, s, log[..k]);
      MadeThere(m, t, last, |base|);
      var r := Read(base, st, m, t);
      forall b | b in r.corrupt ensures b in s.dead {
        if b !in m.corrupt {
          ReadRange(base, st, last, m, t, b);
          BlockRead(base, st, last, m, t, b);
          if b !in s.dead {
            assert t.data[b - m.cur] == s.written[t.first + (b - m.cur)];
            AlikeSure(base, st, b, s.written[b]);
          }
        }
      }
    }
  }

  lemma ReadRange(base: seq<Block>, st: Stamping, last: nat, s: Scan, t: Transfer, b: nat)
    requires Slotted(base, st) && Made(s, t, last, |base|) && b in Read(base, st, s, t).corrupt && b !in s.corrupt
    ensures s.cur <= b < s.cur + |t.data| && b < last
  {
    hide Chunk, Settled;
  }

  // ----- Complete devices -----

  /** The scan has only made full transfers from the start of the buffer on. */
  ghost predicate Steady(atOnce: nat, first: nat, last: nat, cur: nat, size: nat, recover: nat)
    requires atOnce > 0
  {
    first <= cur <= last && recover == NONE && (cur < last ==> size == atOnce && Whole(cur - first, atOnce))
  }

  lemma SteadyNext(atOnce: nat, first: nat, last: nat, s: Scan, t: Transfer)
    requires atOnce > 0 && last < NONE && Steady(atOnce, first, last, s.cur, s.size, s.recover)
    requires Made(s, t, last, atOnce) && |t.data| == t.n
    ensures
      var m := Settled(s, |t.data|, t.n, atOnce);
      Steady(atOnce, first, last, m.cur, m.size, m.recover) && m.cur == s.cur + t.n && m.dead == s.dead &&
        t.n == Min(atOnce, last - s.cur)
  {
    hide Whole;
    WholeAfter(s.cur - first, t.n, atOnce, last - first);
  }

  ghost predicate AllFull(log: seq<Transfer>)
  {
    forall k :: 0 <= k < |log| ==> |log[k].data| == log[k].n
  }

  /** The cells after a run of writes. */
  ghost function KeptAll(cells: seq<Block>, log: seq<Transfer>): (r: seq<Block>)
    requires |cells| > 0
    ensures |r| == |cells|
    decreases |log|
  {
    if log == [] then cells
    else
      var t := log[|log| - 1];
      Kept(KeptAll(cells, log[..|log| - 1]), t.first, t.data)
  }

  /** When every write is complete the cells hold the whole pass so far. */
  lemma {:induction false} CompleteWrites(base: seq<Block>, st: Stamping, first: nat, last: nat, s: Scan,
                                          log: seq<Transfer>, cells: seq<Block>)
    requires Slotted(base, st) && RunWrites(base, st, last, s, log).Some? && |cells| > 0 && last < NONE
    requires s.cur == first && Steady(|base|, first, last, s.cur, s.size, s.recover) && AllFull(log)
    ensures
      var t := RunWrites(base, st, last, s, log).value;
      && Steady(|base|, first, last, t.cur, t.size, t.recover) && t.dead == s.dead
      && KeptAll(cells, log) == Kept(cells, first, Region(base, st, first, t.cur - first))
    decreases |log|
  {
    hide Steady, Kept, Region, Chunk, Settled, Whole;
    if log == [] {
      SteadyRange(|base|, first, last, s);
      KeptNone(cells, base, st, first);
    } else {
      var k := |log| - 1;
      var t := log[k];
      var m := LastWrite(base, st, last, s, log);
      CompleteWrites(base, st, first, last, s, log[..k], cells);
      SteadyRange(|base|, first, last, m);
      SteadyNext(|base|, first, last, m, t);
      KeptExtends(cells, KeptAll(cells, log[..k]), KeptAll(cells, log), base, st, first,
                  m.cur - first, t.n, last - first);
    }
  }

  lemma SteadyRange(atOnce: nat, first: nat, last: nat, s: Scan)
    requires atOnce > 0 && Steady(atOnce, first, last, s.cur, s.size, s.recover)
    ensures first <= s.cur <= last && (s.cur < last ==> Whole(s.cur - first, atOnce))
  {
  }

  ghost predicate AllHeld(cells: seq<Block>, log: seq<Transfer>)
    requires |cells| > 0
  {
    forall k :: 0 <= k < |log| ==> log[k].data == Held(cells, log[k].first, log[k].n)
  }

  /** When every read is complete, the blocks found different are exactly those given back wrong; and the
      last transfer was made below the threshold. */
  ghost predicate Trails(base: seq<Block>, st: Stamping, first: nat, listed: set<nat>, cells: seq<Block>,
                         cur: nat, dead: set<nat>, corrupt: set<nat>, prev: nat)
    requires Slotted(base, st) && |cells| > 0
  {
    && first <= cur && corrupt == listed + Wrong(cells, base, st, first, cur - first)
    && (cur == first || (first <= prev < cur <= prev + |base| && Whole(prev - first, |base|) &&
                         Below(dead, listed + Wrong(cells, base, st, first, prev - first))))
  }

  lemma {:induction false} CompleteReads(base: seq<Block>, st: Stamping, first: nat, last: nat, s: Scan,
                                         log: seq<Transfer>, cells: seq<Block>) returns (prev: nat)
    requires Slotted(base, st) && RunReads(base, st, last, s, log).Some? && |cells| > 0 && last < NONE
    requires s.cur == first && Steady(|base|, first, last, s.cur, s.size, s.recover) && AllHeld(cells, log)
    ensures
      var t := RunReads(base, st, last, s, log).value;
      Steady(|base|, first, last, t.cur, t.size, t.recover) && t.dead == s.dead &&
        Trails(base, st, first, s.corrupt, cells, t.cur, t.dead, t.corrupt, prev)
    decreases |log|
  {
    hide Steady, Made, Read, Trails;
    if log == [] {
      prev := first;
      TrailsNone(base, st, first, s, cells);
    } else {
      var k := |log| - 1;
      var t := log[k];
      var m := LastRead(base, st, last, s, log);
      var before := CompleteReads(base, st, first, last, s, log[..k], cells);
      CompleteRead(base, st, first, last, s.corrupt, cells, m, t, before);
      prev := m.cur;
    }
  }

  lemma CompleteRead(base: seq<Block>, st: Stamping, first: nat, last: nat, listed: set<nat>, cells: seq<Block>,
                     s: Scan, t: Transfer, prev: nat)
    requires Slotted(base, st) && |cells| > 0 && last < NONE && Steady(|base|, first, last, s.cur, s.size, s.recover)
    requires Made(s, t, last, |base|) && t.data == Held(cells, t.first, t.n)
    requires Trails(base, st, first, listed, cells, s.cur, s.dead, s.corrupt, prev)
    ensures t.n <= |base| && |t.data| <= t.n
    ensures
      var m := Read(base, st, s, t);
      && Steady(|base|, first, last, m.cur, m.size, m.recover) && m.dead == s.dead
      && Trails(base, st, first, listed, cells, m.cur, m.dead, m.corrupt, s.cur)
  {
    hide Steady, Settled, Trails, Read, Below, Held, Whole, Found, Wrong, Noted;
    SteadyRange(|base|, first, last, s);
    HeldSize(cells, t.first, t.n);
    FullReadMoves(base, st, last, s, t);
    SteadyNext(|base|, first, last, s, t);
    FullRead(base, st, last, s, t);
    var m := Read(base, st, s, t);
    TrailsNext(base, st, first, listed, cells, s.cur, s.dead, s.corrupt, prev, t.n, t.data, m.cur, m.corrupt, m.dead);
  }

  lemma HeldSize(cells: seq<Block>, first: nat, n: nat)
    requires |cells| > 0
    ensures |Held(cells, first, n)| == n
  {
  }

  lemma FullReadMoves(base: seq<Block>, st: Stamping, last: nat, s: Scan, t: Transfer)
    requires Slotted(base, st) && Made(s, t, last, |base|) && |t.data| == t.n
    ensures
      var m, next := Read(base, st, s, t), Settled(s, |t.data|, t.n, |base|);
      m.cur == next.cur && m.size == next.size && m.recover == next.recover && m.dead == s.dead
  {
    hide Found, Noted;
  }

  lemma TrailsNone(base: seq<Block>, st: Stamping, first: nat, s: Scan, cells: seq<Block>)
    requires Slotted(base, st) && |cells| > 0 && s.cur == first
    ensures Trails(base, st, first, s.corrupt, cells, s.cur, s.dead, s.corrupt, first)
  {
  }

  lemma TrailsNext(base: seq<Block>, st: Stamping, first: nat, listed: set<nat>, cells: seq<Block>,
                   cur: nat, dead: set<nat>, corrupt: set<nat>, prev: nat, k: nat, data: seq<Block>,
                   next: nat, more: set<nat>, dead': set<nat>)
    requires Slotted(base, st) && |cells| > 0 && 0 < k <= |base| && next == cur + k && dead' == dead
    requires Trails(base, st, first, listed, cells, cur, dead, corrupt, prev)
    requires Whole(cur - first, |base|) && Below(dead, corrupt)
    requires data == Held(cells, cur, k) && |data| == k && more == corrupt + Found(base, st, cur, data)
    ensures Trails(base, st, first, listed, cells, next, dead', more, cur)
  {
    hide Wrong, Found, Held, Whole, Below;
    WrongFound(cells, base, st, first, cur, k, data);
  }

  lemma WrongFound(cells: seq<Block>, base: seq<Block>, st: Stamping, first: nat, cur: nat, k: nat, data: seq<Block>)
    requires Slotted(base, st) && |cells| > 0 && k <= |base| && first <= cur && Whole(cur - first, |base|)
    requires data == Held(cells, cur, k) && |data| == k
    ensures Wrong(cells, base, st, first, cur + k - first) ==
      Wrong(cells, base, st, first, cur - first) + Found(base, st, cur, data)
  {
    hide Wrong, Differing, Held, Chunk, Whole;
    WrongExtends(cells, base, st, first, cur - first, k);
  }

  lemma FullRead(base: seq<Block>, st: Stamping, last: nat, s: Scan, t: Transfer)
    requires Slotted(base, st) && Made(s, t, last, |base|) && |t.data| == t.n
    ensures
      var m := Read(base, st, s, t);
      && m.cur == s.cur + t.n && m.dead == s.dead
      && m.corrupt == s.corrupt + Found(base, st, s.cur, t.data)
  {
    hide Found, Noted;
  }

  // ----- Progress of the loops -----

  /** An iteration gets on by blocks, or by the size of the transfer. */
  ghost predicate Progress(s: Scan, m: Scan, last: nat, atOnce: nat)
  {
    s.cur <= m.cur <= last && 0 < m.size <= atOnce && (s.cur < m.cur || m.size < s.size)
  }

  lemma WriteProgress(base: seq<Block>, st: Stamping, last: nat, s: Scan, t: Transfer)
    requires Slotted(base, st) && Writes(base, st, last, s, t)
    ensures Progress(s, Wrote(s, t, |base|), last, |base|)
  {
  }

  lemma ReadProgress(base: seq<Block>, st: Stamping, last: nat, s: Scan, t: Transfer)
    requires Slotted(base, st) && Made(s, t, last, |base|)
    ensures Progress(s, Read(base, st, s, t), last, |base|)
  {
    hide Found, Noted;
  }

  lemma KeptAllMore(cells: seq<Block>, log: seq<Transfer>, t: Transfer)
    requires |cells| > 0
    ensures KeptAll(cells, log + [t]) == Kept(KeptAll(cells, log), t.first, t.data)
  {
    assert (log + [t])[..|log|] == log;
  }
}
