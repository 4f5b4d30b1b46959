/** Two ways in which the bad-block test falls short, as runs of transfers, and exactly when it does not. */
module BadBlocksFaults {
  import opened Wrappers
  import opened Arithmetic
  import opened BadBlocksPattern
  import opened BadBlocksDevice
  import opened BadBlocksContents
  import opened BadBlocksScan
  import opened BadBlocksRun

  /** Before the first pass. */
  function Fresh(atOnce: nat): Scan
  {
    Scan(0, atOnce, NONE, {}, {}, map[], map[])
  }

  /** A first pass over `last` blocks of a faithful device: the writes, then the reads, ending at `t`. */
  ghost predicate PassRun(base: seq<Block>, st: Stamping, last: nat, writes: seq<Transfer>, transfers: seq<Transfer>,
                          t: Scan)
    requires Slotted(base, st)
  {
    match RunWrites(base, st, last, Fresh(|base|), writes)
    case None => false
    case Some(m) =>
      && m.cur == last && RunReads(base, st, last, m.(cur := 0, size := |base|), transfers) == Some(t)
      && AllAgree(m.written, transfers)
  }

  lemma NoTransfer(base: seq<Block>, st: Stamping, last: nat, s: Scan)
    requires Slotted(base, st)
    ensures RunWrites(base, st, last, s, []) == Some(s) && RunReads(base, st, last, s, []) == Some(s)
  {
  }

  // ----- A faithful device reported as corrupted -----

  /** A write of `n` blocks that gives `data`. */
  lemma WriteNext(base: seq<Block>, st: Stamping, last: nat, s: Scan, log: seq<Transfer>, m: Scan, n: nat,
                  data: seq<Block>, next: Scan)
    returns (longer: seq<Transfer>)
    requires Slotted(base, st) && RunWrites(base, st, last, s, log) == Some(m)
    requires m.cur < last && 0 < m.size <= |base| && m.dead == m.corrupt == {}
    requires n == Min(m.size, last - m.cur) && |data| <= n
    requires data == Chunk(base, st, m.cur, |data|) && next == Wrote(m, Transfer(m.cur, n, data), |base|)
    ensures RunWrites(base, st, last, s, longer) == Some(next)
  {
    hide RunWrites, Chunk;
    var t := Transfer(m.cur, n, data);
    WritesMore(base, st, last, s, log, m, t);
    longer := log + [t];
  }

  /** The first transfer of two blocks fails; both are then written alone, from the first place of the
      buffer. */
  lemma AlarmWrites(base: seq<Block>, m: Scan) returns (log: seq<Transfer>)
    requires Slotted(base, Plain) && |base| >= 2
    requires m == Scan(2, 1, |base|, {}, {}, map[0 := base[0], 1 := base[0]], map[]) && 2 < |base| < NONE
    ensures RunWrites(base, Plain, 2, Fresh(|base|), log) == Some(m)
  {
    hide RunWrites;
    var n, s := |base|, Fresh(|base|);
    NoTransfer(base, Plain, 2, s);
    var s1 := s.(size := 1, recover := n);
    assert Noted(map[], 0, []) == map[];
    log := WriteNext(base, Plain, 2, s, [], s, 2, [], s1);
    var one := [base[0]];
    assert Chunk(base, Plain, 0, 1) == one && Chunk(base, Plain, 1, 1) == one;
    var s2 := s1.(cur := 1, written := map[0 := base[0]]);
    assert Noted(map[], 0, one) == map[0 := base[0]];
    log := WriteNext(base, Plain, 2, s, log, s1, 1, one, s2);
    assert Noted(map[0 := base[0]], 1, one) == m.written;
    log := WriteNext(base, Plain, 2, s, log, s2, 1, one, m);
  }

  /** Read back together, the second block is compared with the second place of the buffer. */
  lemma AlarmRead(base: seq<Block>, m: Scan) returns (t: Transfer)
    requires Slotted(base, Plain) && 2 < |base| && base[0] != base[1]
    requires m == Scan(0, |base|, |base|, {}, {}, map[0 := base[0], 1 := base[0]], map[])
    ensures Made(m, t, 2, |base|) && Agrees(m.written, t)
    ensures var r := Read(base, Plain, m, t); r.dead == {} && r.corrupt == {1}
  {
    t := Transfer(0, 2, [base[0], base[0]]);
    assert Chunk(base, Plain, 0, 2) == [base[0], base[1]];
    assert Differing(t.data, [base[0], base[1]], 0) == {1};
  }

  lemma FalseAlarm(base: seq<Block>) returns (writes: seq<Transfer>, transfers: seq<Transfer>, t: Scan)
    requires Slotted(base, Plain) && 2 < |base| < NONE && base[0] != base[1]
    ensures PassRun(base, Plain, 2, writes, transfers, t) && t.dead == {} && t.corrupt == {1}
  {
    hide RunWrites, RunReads, Made, Read;
    var m := Scan(2, 1, |base|, {}, {}, map[0 := base[0], 1 := base[0]], map[]);
    writes := AlarmWrites(base, m);
    var s := m.(cur := 0, size := |base|);
    var x := AlarmRead(base, s);
    NoTransfer(base, Plain, 2, s);
    MadeThere(s, x, 2, |base|);
    ReadsMore(base, Plain, 2, s, [], s, x);
    transfers := [] + [x];
    t := Read(base, Plain, s, x);
  }

  // ----- Exactly when this cannot happen -----

  /** For every pattern of the tests: no run of a first pass over a faithful device finds a block different
      that did not fail a transfer, exactly when the pattern is not one of the two of three bytes. */
  lemma FaithfulExactly(p: nat, bytes: seq<byte>, base: seq<Block>)
    requires FromTable(p) && |bytes| == BLOCKS_AT_ONCE * BLOCK_SIZE && base == Slots(bytes, BLOCK_SIZE, BLOCKS_AT_ONCE)
    requires forall j :: 0 <= j < |bytes| ==> bytes[j] == PatternByte(p, j)
    ensures Slotted(base, Plain)
    ensures (forall last, writes, transfers, t ::
               PassRun(base, Plain, last, writes, transfers, t) ==> t.corrupt <= t.dead) <==> Even(p)
  {
    hide Slots, PatternByte, PassRun, Alike;
    SlotsSlotted(bytes, Plain);
    TableAlike(p, bytes);
    if Even(p) {
      forall last, writes, transfers, t | PassRun(base, Plain, last, writes, transfers, t) ensures t.corrupt <= t.dead {
        FaithfulRun(base, last, writes, transfers, t);
      }
    } else {
      TableUnlike(p, bytes);
      var writes, transfers, t := FalseAlarm(base);
      assert 1 in t.corrupt && 1 !in t.dead;
    }
  }

  lemma FaithfulRun(base: seq<Block>, last: nat, writes: seq<Transfer>, transfers: seq<Transfer>, t: Scan)
    requires Slotted(base, Plain) && Alike(base) && PassRun(base, Plain, last, writes, transfers, t)
    ensures t.corrupt <= t.dead
  {
    hide RunWrites, RunReads, Alike, AllAgree;
    var m := RunWrites(base, Plain, last, Fresh(|base|), writes).value;
    var r := m.(cur := 0, size := |base|);
    FaithfulPass(base, Plain, 0, last, Fresh(|base|), writes, m, r, transfers);
    ReadsPass(base, Plain, last, r, transfers);
  }

  /** What comes from the buffer is never doubted exactly for those patterns. */
  lemma DoubtExactly(p: nat, bytes: seq<byte>, base: seq<Block>)
    requires FromTable(p) && |bytes| == BLOCKS_AT_ONCE * BLOCK_SIZE && base == Slots(bytes, BLOCK_SIZE, BLOCKS_AT_ONCE)
    requires forall j :: 0 <= j < |bytes| ==> bytes[j] == PatternByte(p, j)
    ensures Slotted(base, Plain)
    ensures (forall b, d :: FromBuffer(base, Plain, b, d) ==> !Doubted(base, Plain, b, d)) <==> Even(p)
  {
    hide Slots, PatternByte;
    SlotsSlotted(bytes, Plain);
    TableAlike(p, bytes);
    if Even(p) {
      forall b, d | FromBuffer(base, Plain, b, d) ensures !Doubted(base, Plain, b, d) { AlikeSure(base, Plain, b, d); }
    } else {
      TableUnlike(p, bytes);
      assert FromBuffer(base, Plain, 0, base[0]) by { assert base[0] == Content(base[0], Plain, 0); }
      assert Doubted(base, Plain, 0, base[0]) by { assert base[0] != Content(base[1], Plain, 0); }
    }
  }

  // ----- A wrong block that is neither listed nor compared -----

  /** A short read gives one wrong block of two; the scan goes on after it, and ends with nothing found. */
  lemma ShortReadMisses(base: seq<Block>, st: Stamping, wrong: Block) returns (log: seq<Transfer>, t: Scan)
    requires Slotted(base, st) && 2 < |base| < NONE
    ensures RunReads(base, st, 2, Fresh(|base|), log) == Some(t) && t.cur == 2
    ensures t.dead == {} && t.corrupt == {} && ComparedOf(log) == {1} && ShortOf(log) == {0}
    ensures 0 in t.seen && t.seen[0] == wrong
  {
    hide RunReads, Made, Read, ShortOf, ComparedOf, Chunk;
    var s := Fresh(|base|);
    var a, b := Transfer(0, 2, [wrong]), Transfer(1, 1, Chunk(base, st, 1, 1));
    NoTransfer(base, st, 2, s);
    var s1 := ShortFirst(base, st, wrong);
    ReadsMore(base, st, 2, s, [], s, a);
    t := ShortSecond(base, st, wrong, s1);
    ReadsMore(base, st, 2, s, [] + [a], s1, b);
    log := [] + [a] + [b];
    ChunkSize(base, st, 1, 1);
    ShortLog(a, b);
    assert log == [a, b];
  }

  lemma ShortLog(a: Transfer, b: Transfer)
    requires a.first == 0 && a.n == 2 && |a.data| == 1 && b.first == 1 && b.n == 1 && |b.data| == 1
    ensures ShortOf([a, b]) == {0} && ComparedOf([a, b]) == {1}
  {
    LogSets([a, b]);
    assert [a, b][..1] == [a];
    LogSets([a]);
    assert [a][..0] == [];
    assert Range(0, 1) == {0} && Range(1, 2) == {1};
  }

  lemma ShortFirst(base: seq<Block>, st: Stamping, wrong: Block) returns (m: Scan)
    requires Slotted(base, st) && 2 < |base| < NONE
    ensures Made(Fresh(|base|), Transfer(0, 2, [wrong]), 2, |base|)
    ensures m == Read(base, st, Fresh(|base|), Transfer(0, 2, [wrong]))
    ensures m == Scan(1, 1, |base|, {}, {}, map[], map[0 := wrong])
  {
    assert Noted(map[], 0, [wrong]) == map[0 := wrong];
    m := Scan(1, 1, |base|, {}, {}, map[], map[0 := wrong]);
  }

  lemma ShortSecond(base: seq<Block>, st: Stamping, wrong: Block, m: Scan) returns (t: Scan)
    requires Slotted(base, st) && 2 < |base| < NONE && m == Scan(1, 1, |base|, {}, {}, map[], map[0 := wrong])
    ensures Made(m, Transfer(1, 1, Chunk(base, st, 1, 1)), 2, |base|)
    ensures t == Read(base, st, m, Transfer(1, 1, Chunk(base, st, 1, 1)))
    ensures t.cur == 2 && t.dead == {} && t.corrupt == {} && 0 in t.seen && t.seen[0] == wrong
  {
    hide Content;
    var x := Transfer(1, 1, Chunk(base, st, 1, 1));
    ChunkSize(base, st, 1, 1);
    assert Found(base, st, 1, x.data) == {};
    t := Read(base, st, m, x);
  }

  // ----- Recoveries -----

  /** Block by block up to `recover`, after a transfer that failed; or beyond it, if the block before it could
      not be transferred. */
  ghost predicate Recovering(s: Scan)
  {
    s.recover == NONE || (s.size == 1 && (s.cur < s.recover || Missed(s)))
  }

  /** The end of the recovery has been passed. */
  ghost predicate Missed(s: Scan)
  {
    0 < s.recover <= s.cur && s.recover - 1 in s.dead
  }

  lemma SettledRecovers(s: Scan, got: nat, n: nat, atOnce: nat, last: nat)
    requires Recovering(s) && s.cur < last && last + atOnce < NONE && 0 < s.size <= atOnce
    requires n == Min(s.size, last - s.cur) && got <= n
    ensures
      var m := Settled(s, got, n, atOnce);
      && Recovering(m)
      && (s.recover != NONE && s.cur < s.recover && m.cur == s.recover ==> (m.recover == NONE <==> got == n))
      && (s.recover != NONE && Missed(s) ==> m.recover == s.recover && m.size == 1 && Missed(m))
  {
  }

  /** In a scan that begins without a recovery: a recovery ends at the block it was meant to end at exactly
      when the block before that can be transferred; otherwise it is missed, and the rest of the scan goes
      block by block. */
  lemma {:induction false} WritesRecover(base: seq<Block>, st: Stamping, last: nat, s: Scan, log: seq<Transfer>)
    requires Slotted(base, st) && RunWrites(base, st, last, s, log).Some? && Recovering(s) && last + |base| < NONE
    ensures
      var m := RunWrites(base, st, last, s, log).value;
      Recovering(m) && (s.recover != NONE && Missed(s) ==> m.recover == s.recover && m.size == 1 && Missed(m))
    decreases |log|
  {
    hide RunWrites, Settled, Chunk, Recovering, Missed;
    if log == [] {
      NoTransfer(base, st, last, s);
      MissedSingle(s);
    } else {
      var k := |log| - 1;
      var m := LastWrite(base, st, last, s, log);
      WritesRecover(base, st, last, s, log[..k]);
      SettledRecovers(m, |log[k].data|, log[k].n, |base|, last);
      RecoverFrame(Settled(m, |log[k].data|, log[k].n, |base|), Wrote(m, log[k], |base|));
    }
  }

  lemma {:induction false} ReadsRecover(base: seq<Block>, st: Stamping, last: nat, s: Scan, log: seq<Transfer>)
    requires Slotted(base, st) && RunReads(base, st, last, s, log).Some? && Recovering(s) && last + |base| < NONE
    ensures
      var m := RunReads(base, st, last, s, log).value;
      Recovering(m) && (s.recover != NONE && Missed(s) ==> m.recover == s.recover && m.size == 1 && Missed(m))
    decreases |log|
  {
    hide RunReads, Settled, Found, Recovering, Missed;
    if log == [] {
      NoTransfer(base, st, last, s);
      MissedSingle(s);
    } else {
      var k := |log| - 1;
      var m := LastRead(base, st, last, s, log);
      ReadsRecover(base, st, last, s, log[..k]);
      MadeThere(m, log[k], last, |base|);
      SettledRecovers(m, |log[k].data|, log[k].n, |base|, last);
      RecoverFrame(Settled(m, |log[k].data|, log[k].n, |base|), Read(base, st, m, log[k]));
    }
  }

  lemma MissedSingle(s: Scan)
    requires Recovering(s)
    ensures s.recover != NONE && Missed(s) ==> s.size == 1
  {
  }

  lemma RecoverFrame(a: Scan, b: Scan)
    requires a.cur == b.cur && a.size == b.size && a.recover == b.recover && a.dead == b.dead
    ensures Recovering(a) == Recovering(b) && Missed(a) == Missed(b)
  {
  }
}
