/** Whole passes of the bad-block test (src/badblocks.c:407-567): what a device that keeps block b in
    cell b mod m gives back, and what the passes report. */
module BadBlocksRun {
  import opened Wrappers
  import opened Arithmetic
  import opened BadBlocksPattern
  import opened BadBlocksDevice
  import opened BadBlocksContents
  import opened BadBlocksScan
  import opened BadBlocksTally
  import opened BadList
  import opened BadBlocks

  // ----- A device of m cells -----

  lemma CellApart(a: nat, b: nat, m: nat)
    requires m > 0 && a < b && Cell(a, m) == Cell(b, m)
    ensures b - a >= m
  {
    var q, r := a / m, b / m;
    Multiple(m, r - q, b - a);
  }

  lemma Multiple(m: nat, d: int, n: nat)
    requires n == m * d && n > 0
    ensures n >= m
  {
    if d >= 1 {
      assert m * (d - 1) >= 0;
    }
  }

  lemma CellBack(b: nat, m: nat)
    requires 0 < m <= b
    ensures Cell(b - m, m) == Cell(b, m)
  {
    ModUnique(b - m, m, b / m - 1, b % m);
  }

  /** The last block before `hi` that shares the cell of `b`. */
  ghost function Latest(b: nat, hi: nat, m: nat): (r: nat)
    requires m > 0 && b < hi
    ensures b <= r < hi && Cell(r, m) == Cell(b, m)
  {
    if Cell(b, m) == Cell(hi - 1, m) then hi - 1 else Latest(b, hi - 1, m)
  }

  /** A block is overwritten exactly when it is more than m blocks from the end. */
  lemma {:induction false} LatestIs(b: nat, hi: nat, m: nat)
    requires m > 0 && b < hi
    ensures Latest(b, hi, m) == b <==> hi <= b + m
    decreases hi
  {
    hide Cell;
    if Cell(b, m) == Cell(hi - 1, m) {
      if b < hi - 1 { CellApart(b, hi - 1, m); }
    } else {
      LatestIs(b, hi - 1, m);
      if b + m == hi - 1 { CellBack(hi - 1, m); }
    }
  }

  lemma {:induction false} KeptLatest(cells: seq<Block>, base: seq<Block>, st: Stamping, first: nat, n: nat, b: nat)
    requires |cells| > 0 && Slotted(base, st) && first <= b < first + n
    ensures
      var m := |cells|;
      |Kept(cells, first, Region(base, st, first, n))| == m &&
      Kept(cells, first, Region(base, st, first, n))[Cell(b, m)] == Expect(base, st, first, Latest(b, first + n, m))
    decreases n
  {
    hide Cell, Expect;
    var r := Region(base, st, first, n);
    assert r[..n - 1] == Region(base, st, first, n - 1);
    if Cell(b, |cells|) != Cell(first + n - 1, |cells|) {
      KeptLatest(cells, base, st, first, n - 1, b);
    }
  }

  /** All blocks of the buffer have one size. */
  ghost predicate OneSize(base: seq<Block>)
  {
    forall i, j :: 0 <= i < |base| && 0 <= j < |base| ==> |base[i]| == |base[j]|
  }

  lemma ExpectDiffers(base: seq<Block>, st: Stamping, first: nat, a: nat, b: nat)
    requires Slotted(base, st) && st.At? && OneSize(base) && first <= a < TWO_64 && first <= b < TWO_64 && a != b
    ensures Expect(base, st, first, a) != Expect(base, st, first, b)
  {
    hide Stamp;
    if Expect(base, st, first, a) == Expect(base, st, first, b) {
      StampInjective(base[Cell(a - first, |base|)], base[Cell(b - first, |base|)], st.offset, a, b);
    }
  }

  /** The first block, from `first` on, that a pass up to `hi` leaves as it was written. */
  function Intact(first: nat, hi: nat, m: nat): (r: nat)
  {
    if hi < first + m then first else hi - m
  }

  /** After a pass over a complete device, the blocks given back wrong are those that were overwritten:
      all of them when block numbers are stamped, none when the device is large enough. */
  lemma WrongOverwritten(cells: seq<Block>, base: seq<Block>, st: Stamping, first: nat, n: nat, k: nat)
    requires |cells| > 0 && Slotted(base, st) && k <= n && first + n < TWO_64
    requires (st.At? && OneSize(base)) || n <= |cells|
    ensures
      var after := Kept(cells, first, Region(base, st, first, n));
      |after| > 0 && Wrong(after, base, st, first, k) == Range(first, Min(first + k, Intact(first, first + n, |cells|)))
  {
    hide Kept, Region, Wrong, Slotted, OneSize;
    KeptSize(cells, first, Region(base, st, first, n));
    var after := Kept(cells, first, Region(base, st, first, n));
    var wrong := Wrong(after, base, st, first, k);
    var range := Range(first, Min(first + k, Intact(first, first + n, |cells|)));
    forall b | b in wrong ensures b in range {
      WrongOne(cells, base, st, first, n, k, b);
    }
    forall b | b in range ensures b in wrong {
      WrongOne(cells, base, st, first, n, k, b);
    }
  }

  lemma WrongOne(cells: seq<Block>, base: seq<Block>, st: Stamping, first: nat, n: nat, k: nat, b: nat)
    requires |cells| > 0 && Slotted(base, st) && k <= n && first + n < TWO_64
    requires (st.At? && OneSize(base)) || n <= |cells|
    ensures
      var after := Kept(cells, first, Region(base, st, first, n));
      |after| > 0 && (b in Wrong(after, base, st, first, k) <==> first <= b < first + k && b + |cells| < first + n)
  {
    hide Expect, Kept, Cell;
    var after := Kept(cells, first, Region(base, st, first, n));
    KeptSize(cells, first, Region(base, st, first, n));
    if first <= b < first + k {
      KeptLatest(cells, base, st, first, n, b);
      LatestIs(b, first + n, |cells|);
      var l := Latest(b, first + n, |cells|);
      HeldAt(after, first, k, b - first);
      assert Region(base, st, first, k)[b - first] == Expect(base, st, first, first + (b - first));
      if l != b { ExpectDiffers(base, st, first, l, b); }
    }
  }

  lemma KeptSize(cells: seq<Block>, first: nat, data: seq<Block>)
    requires |cells| > 0
    ensures |Kept(cells, first, data)| == |cells|
  {
  }

  // ----- One pass -----

  /** The blocks of the buffer in a pass. */
  ghost predicate PassBuffer(base: seq<Block>, pattern: nat, st: Stamping)
  {
    Slotted(base, st) && exists bytes: seq<byte> ::
      && |bytes| == BLOCKS_AT_ONCE * BLOCK_SIZE
      && (forall j :: 0 <= j < |bytes| ==> bytes[j] == PatternByte(pattern, j))
      && base == Slots(bytes, BLOCK_SIZE, BLOCKS_AT_ONCE)
  }

  /** The buffer of a pass, filled with a pattern. */
  method FillBuffer(pattern: nat, st: Stamping) returns (buffer: array<Block>)
    requires pattern < RANDOM && (st.At? ==> st.offset + ID_SIZE <= BLOCK_SIZE)
    ensures fresh(buffer) && buffer.Length == BLOCKS_AT_ONCE && PassBuffer(buffer[..], pattern, st)
    ensures OneSize(buffer[..]) && Loaded(buffer[..], buffer[..], st) && (Even(pattern) ==> Alike(buffer[..]))
  {
    hide PatternByte, Slots, OneSize, Loaded, Alike, Slotted;
    var filled := PatternFill(pattern, BLOCKS_AT_ONCE * BLOCK_SIZE);
    var slots := Slots(filled[..], BLOCK_SIZE, BLOCKS_AT_ONCE);
    SlotsSlotted(filled[..], st);
    if Even(pattern) { TableAlike(pattern, filled[..]); }
    buffer := new Block[BLOCKS_AT_ONCE](i requires 0 <= i < |slots| => slots[i]);
    assert buffer[..] == slots;
  }

  lemma SlotsSlotted(bytes: seq<byte>, st: Stamping)
    requires |bytes| == BLOCKS_AT_ONCE * BLOCK_SIZE && (st.At? ==> st.offset + ID_SIZE <= BLOCK_SIZE)
    ensures
      var base := Slots(bytes, BLOCK_SIZE, BLOCKS_AT_ONCE);
      Slotted(base, st) && OneSize(base) && |base| == BLOCKS_AT_ONCE && Loaded(base, base, st)
  {
  }

  lemma {:induction false} RangeSize(a: nat, b: nat)
    requires a <= b
    ensures |Range(a, b)| == b - a
  {
    if a < b {
      RangeSize(a, b - 1);
      assert b - 1 !in Range(a, b - 1);
    }
  }

  /** A complete device of m blocks, tested up to block `last`: the list of a first pass that was not
      interrupted. */
  function Reported(last: nat, m: nat): nat
  {
    Min(Intact(0, last, m), MAX_BAD)
  }

  lemma ReportedNone(last: nat, m: nat)
    ensures last <= m ==> Range(0, Reported(last, m)) == {}
  {
  }

  lemma Multiples(n: nat)
    requires Whole(n, BLOCKS_AT_ONCE)
    ensures n < MAX_BAD ==> n <= MAX_BAD - BLOCKS_AT_ONCE
  {
  }

  /** Where the scan of a complete device stops, and what it has found then. */
  lemma ScanStops(cells: seq<Block>, base: seq<Block>, st: Stamping, last: nat, stop: nat, prev: nat, found: set<nat>,
                  outcome: Outcome)
    requires |cells| > 0 && Slotted(base, st) && |base| == BLOCKS_AT_ONCE && stop <= last < TWO_64
    requires (st.At? && OneSize(base)) || last <= |cells|
    requires
      var after := Kept(cells, 0, Region(base, st, 0, last));
      |after| > 0 && Trails(base, st, 0, {}, after, stop, {}, found, prev)
    requires (outcome == Finished && stop == last) || (outcome == TooMany && stop < last && |found| >= MAX_BAD)
    ensures found == Range(0, Reported(last, |cells|))
  {
    hide Kept, Region, Wrong, Whole, Range, Slotted, OneSize, Intact, Trails;
    var over := Intact(0, last, |cells|);
    ScanCounts(cells, base, st, last, stop, prev, found);
    StopsAt(over, last, |cells|, stop, prev, outcome, |found|);
  }

  lemma ScanCounts(cells: seq<Block>, base: seq<Block>, st: Stamping, last: nat, stop: nat, prev: nat, found: set<nat>)
    requires |cells| > 0 && Slotted(base, st) && |base| == BLOCKS_AT_ONCE && stop <= last < TWO_64
    requires (st.At? && OneSize(base)) || last <= |cells|
    requires
      var after := Kept(cells, 0, Region(base, st, 0, last));
      |after| > 0 && Trails(base, st, 0, {}, after, stop, {}, found, prev)
    ensures
      var over := Intact(0, last, |cells|);
      && found == Range(0, Min(stop, over)) && |found| == Min(stop, over)
      && (stop > 0 ==> prev < stop <= prev + BLOCKS_AT_ONCE && Whole(prev, BLOCKS_AT_ONCE) && Min(prev, over) < MAX_BAD)
  {
    hide Kept, Region, Wrong, Whole, Range, Slotted, OneSize, Intact, Min, Below;
    var after := Kept(cells, 0, Region(base, st, 0, last));
    var over := Intact(0, last, |cells|);
    WrongCounts(cells, base, st, last, stop, after);
    RangeCount(Wrong(after, base, st, 0, stop), Min(stop, over));
    if stop > 0 {
      WrongCounts(cells, base, st, last, prev, after);
      RangeCount(Wrong(after, base, st, 0, prev), Min(prev, over));
      BelowSize({} + Wrong(after, base, st, 0, prev));
    }
  }

  lemma BelowSize(found: set<nat>)
    requires Below({}, found)
    ensures |found| < MAX_BAD
  {
    NothingBut(found);
  }

  lemma WrongCounts(cells: seq<Block>, base: seq<Block>, st: Stamping, last: nat, k: nat, after: seq<Block>)
    requires |cells| > 0 && Slotted(base, st) && k <= last < TWO_64 && ((st.At? && OneSize(base)) || last <= |cells|)
    requires after == Kept(cells, 0, Region(base, st, 0, last)) && |after| > 0
    ensures Wrong(after, base, st, 0, k) == Range(0, Min(k, Intact(0, last, |cells|)))
  {
    hide *;
    WrongOverwritten(cells, base, st, 0, last, k);
  }

  lemma RangeCount(s: set<nat>, n: nat)
    requires s == Range(0, n)
    ensures {} + s == Range(0, n) && |Range(0, n)| == n
  {
    hide Range;
    RangeSize(0, n);
    NothingBut(s);
  }

  lemma NothingBut(s: set<nat>)
    ensures {} + s == s
  {
  }

  lemma StopsAt(over: nat, last: nat, m: nat, stop: nat, prev: nat, outcome: Outcome, count: nat)
    requires m > 0 && over == Intact(0, last, m) && count == Min(stop, over) && stop <= last
    requires stop > 0 ==>
      prev < stop <= prev + BLOCKS_AT_ONCE && Whole(prev, BLOCKS_AT_ONCE) && Min(prev, over) < MAX_BAD
    requires (outcome == Finished && stop == last) || (outcome == TooMany && stop < last && count >= MAX_BAD)
    ensures Min(stop, over) == Min(over, MAX_BAD)
  {
    hide Whole;
    if stop > 0 { Multiples(prev); }
  }

  /** What the device does in a pass, told by its kind: a faithful one has nothing found different but
      dead blocks, unless the place in the buffer matters; a complete one has its overwritten blocks found,
      up to the threshold. */
  lemma FaithfulPass(base: seq<Block>, st: Stamping, first: nat, last: nat, s: Scan, writes: seq<Transfer>, m: Scan,
                     r: Scan, transfers: seq<Transfer>)
    requires Slotted(base, st) && Alike(base) && s.cur == first <= last && s.corrupt <= s.dead
    requires RunWrites(base, st, last, s, writes) == Some(m) && m.cur == last && r == m.(cur := first, size := |base|)
    requires RunReads(base, st, last, r, transfers).Some? && AllAgree(r.written, transfers)
    ensures RunReads(base, st, last, r, transfers).value.corrupt <= m.dead
  {
    hide RunWrites, RunReads, AllAgree, FromBuffer;
    WritesLeave(base, st, last, s, writes);
    FaithfulReads(base, st, last, r, transfers);
  }

  lemma CompletePass(base: seq<Block>, st: Stamping, last: nat, s: Scan, writes: seq<Transfer>, m: Scan, r: Scan,
                     transfers: seq<Transfer>, cells: seq<Block>, outcome: Outcome)
    requires Slotted(base, st) && OneSize(base) && |base| == BLOCKS_AT_ONCE && last < NONE && |cells| > 0
    requires s == Scan(0, |base|, NONE, {}, {}, s.written, s.seen) && (st.At? || last <= |cells|)
    requires RunWrites(base, st, last, s, writes) == Some(m) && m.cur == last && r == m.(cur := 0, size := |base|)
    requires RunReads(base, st, last, r, transfers).Some? && AllFull(writes)
    requires |KeptAll(cells, writes)| > 0 && AllHeld(KeptAll(cells, writes), transfers)
    requires
      var t := RunReads(base, st, last, r, transfers).value;
      && t.cur <= last
      && ((outcome == Finished && t.cur == last) || (outcome == TooMany && t.cur < last && !Below(t.dead, t.corrupt)))
    ensures
      var t := RunReads(base, st, last, r, transfers).value;
      t.dead == {} && t.corrupt == Range(0, Reported(last, |cells|))
  {
    hide *;
    CompleteFilled(base, st, last, s, writes, m, cells);
    CompleteFound(base, st, last, r, transfers, cells, KeptAll(cells, writes), outcome);
  }

  lemma CompleteFilled(base: seq<Block>, st: Stamping, last: nat, s: Scan, writes: seq<Transfer>, m: Scan,
                       cells: seq<Block>)
    requires Slotted(base, st) && |base| == BLOCKS_AT_ONCE && last < NONE && |cells| > 0
    requires s == Scan(0, |base|, NONE, {}, {}, s.written, s.seen)
    requires RunWrites(base, st, last, s, writes) == Some(m) && m.cur == last && AllFull(writes)
    ensures m.recover == NONE && m.dead == {} && m.corrupt == {}
    ensures KeptAll(cells, writes) == Kept(cells, 0, Region(base, st, 0, last))
  {
    hide RunWrites, AllFull, Kept, Region, KeptAll;
    WholeSum(0, 0, |base|);
    CompleteWrites(base, st, 0, last, s, writes, cells);
    WritesLeave(base, st, last, s, writes);
  }

  lemma CompleteFound(base: seq<Block>, st: Stamping, last: nat, r: Scan, transfers: seq<Transfer>, cells: seq<Block>,
                      after: seq<Block>, outcome: Outcome)
    requires Slotted(base, st) && OneSize(base) && |base| == BLOCKS_AT_ONCE && last < NONE && |cells| > 0
    requires r == Scan(0, |base|, NONE, {}, {}, r.written, r.seen) && (st.At? || last <= |cells|)
    requires RunReads(base, st, last, r, transfers).Some? && |after| > 0 && AllHeld(after, transfers)
    requires after == Kept(cells, 0, Region(base, st, 0, last))
    requires
      var t := RunReads(base, st, last, r, transfers).value;
      && t.cur <= last
      && ((outcome == Finished && t.cur == last) || (outcome == TooMany && t.cur < last && !Below(t.dead, t.corrupt)))
    ensures
      var t := RunReads(base, st, last, r, transfers).value;
      t.dead == {} && t.corrupt == Range(0, Reported(last, |cells|))
  {
    hide RunReads, AllHeld, Kept, Region, Trails, OneSize, Reported, Range;
    WholeSum(0, 0, |base|);
    var prev := CompleteReads(base, st, 0, last, r, transfers, after);
    var t := RunReads(base, st, last, r, transfers).value;
    NothingBut(t.corrupt);
    ScanStops(cells, base, st, last, t.cur, prev, t.corrupt, outcome);
  }

  /** What holds after a write scan, finished or not. */
  lemma AfterWrites(base: seq<Block>, st: Stamping, first: nat, last: nat, s: Scan, log: seq<Transfer>, m: Scan)
    requires Slotted(base, st) && s.cur == first <= last < NONE && s.size == |base|
    requires RunWrites(base, st, last, s, log) == Some(m)
    ensures s.dead <= m.dead && m.corrupt == s.corrupt
    ensures AllFull(log) && s.recover == NONE ==> m.dead == s.dead && m.recover == NONE
  {
    hide RunWrites, AllFull;
    WritesLeave(base, st, last, s, log);
    if AllFull(log) && s.recover == NONE {
      WholeSum(0, 0, |base|);
      CompleteWrites(base, st, first, last, s, log, [[]]);
    }
  }

  /** What holds after a read scan, finished or not. */
  lemma AfterReads(base: seq<Block>, st: Stamping, first: nat, last: nat, s: Scan, log: seq<Transfer>, t: Scan)
    requires Slotted(base, st) && s.cur == first <= last < NONE && s.size == |base|
    requires RunReads(base, st, last, s, log) == Some(t)
    ensures first <= t.cur <= last && s.dead <= t.dead && Accounted(base, st, first, t, ShortOf(log))
    ensures Range(first, t.cur) <= ComparedOf(log) + LoneOf(log) <==> forall i :: 0 <= i < |log| ==> !Short(log[i])
    ensures (forall i :: 0 <= i < |log| ==> !Short(log[i])) ==> ShortOf(log) == {}
  {
    hide RunReads, Accounted, ShortOf, ComparedOf, LoneOf, Range;
    ReadsPass(base, st, last, s, log);
    ReadsAccount(base, st, last, s, log);
    AllCompared(base, st, last, s, log);
    ShortExactly(log);
  }

  lemma SteadyReads(base: seq<Block>, st: Stamping, first: nat, last: nat, s: Scan, log: seq<Transfer>, t: Scan,
                    cells: seq<Block>)
    requires Slotted(base, st) && s.cur == first <= last < NONE && s.size == |base|
    requires RunReads(base, st, last, s, log) == Some(t)
    requires |cells| > 0 && AllHeld(cells, log) && s.recover == NONE
    ensures t.recover == NONE
  {
    hide RunReads, AllHeld;
    WholeSum(0, 0, |base|);
    var prev := CompleteReads(base, st, first, last, s, log, cells);
  }

  lemma PassSlotted(base: seq<Block>, pattern: nat, st: Stamping)
    requires PassBuffer(base, pattern, st)
    ensures Slotted(base, st)
  {
  }

  /** One pass: fill, write scan, read scan. */
  method Pass(test: Test, pattern: nat, st: Stamping, first: nat, last: nat)
    returns (outcome: Outcome, ghost round: Round, ghost end: Scan)
    requires test.Valid() && pattern < RANDOM && (st.At? ==> st.offset + ID_SIZE <= BLOCK_SIZE)
    requires first <= last <= LIMIT && test.count < MAX_BAD + BLOCKS_AT_ONCE
    modifies test, test.device, test.bad, test.bad.list
    ensures test.Valid() && (test.bad.list == old(test.bad.list) || fresh(test.bad.list))
    ensures test.count < MAX_BAD + BLOCKS_AT_ONCE
    ensures old(test.bad.Blocks()) <= test.bad.Blocks()
    ensures round.st == st && PassBuffer(round.base, pattern, st) && Slotted(round.base, st)
    ensures test.device.writeLog == old(test.device.writeLog) + round.sent
    ensures test.device.readLog == old(test.device.readLog) + round.back
    ensures outcome != Abandoned ==> test.tally == AfterRound(old(test.tally), round)
    ensures outcome == Cancelled ==> test.cancelled
    ensures (outcome == TooMany ==> test.count >= MAX_BAD) && (outcome == Abandoned ==> last >= LIMIT)
    ensures outcome == Finished ==>
              && end == test.State(last, end.size) && Ended(pattern, st, first, round.base, round.back, end)
              && (test.device.whole ==> ShortOf(round.back) == {})
    ensures old(test.recover) == NONE && test.device.complete ==> test.recover == NONE
    ensures Even(pattern) && test.device.faithful && !test.device.complete && old(test.corrupt <= test.device.dead) ==>
              test.corrupt <= test.device.dead
    ensures test.device.complete && old(test.recover) == NONE && old(test.bad.Blocks()) == {} && first == 0 &&
            (st.At? || last <= test.device.size) && (outcome == Finished || outcome == TooMany) ==>
              test.bad.Blocks() == Range(0, Reported(last, test.device.size))
  {
    hide List.Blocks, Elements, Sorted, PassBuffer, OneSize, Alike, Slotted, Range, Loaded, Even;
    hide RunWrites, RunReads, Accounted, KeptAll, AllFull, AllHeld, AllAgree, ShortOf, ComparedOf, LoneOf, Reported;
    hide Tallied, AfterWriting, AfterReading;
    var buffer := FillBuffer(pattern, st);
    ghost var base := buffer[..];
    PassSlotted(base, pattern, st);
    ghost var cells, s := test.device.cells, test.State(first, buffer.Length);
    ghost var writes, m, log;
    var done;
    outcome, writes, m, done, log, end := BothScans(test, buffer, base, st, first, last);
    round := Round(base, st, writes, log);
    AfterWrites(base, st, first, last, s, writes, m);
    if !done { return; }
    ghost var r := m.(cur := first, size := |base|);
    AfterReads(base, st, first, last, r, log, end);
    assert Ended(pattern, st, first, base, log, end);
    if test.device.complete && old(test.recover) == NONE {
      SteadyReads(base, st, first, last, r, log, end, KeptAll(cells, writes));
    }
    if test.device.complete && old(test.recover) == NONE && old(test.bad.Blocks()) == {} && first == 0 &&
       (st.At? || last <= test.device.size) && (outcome == Finished || outcome == TooMany) {
      CompletePass(base, st, last, s, writes, m, r, log, cells, outcome);
    }
    if Even(pattern) && test.device.faithful && !test.device.complete && old(test.corrupt <= test.device.dead) {
      FaithfulPass(base, st, first, last, s, writes, m, r, log);
    }
  }

  /** The two scans of a pass, as runs; `done` tells whether the read scan was begun. */
  method BothScans(test: Test, buffer: array<Block>, ghost base: seq<Block>, st: Stamping, first: nat, last: nat)
    returns (outcome: Outcome, ghost writes: seq<Transfer>, ghost m: Scan, done: bool,
             ghost log: seq<Transfer>, ghost end: Scan)
    requires test.Valid() && Slotted(base, st) && Loaded(buffer[..], base, st)
    requires first <= last && buffer.Length == BLOCKS_AT_ONCE
    requires (buffer as object) != (test.bad.list as object) && test.count < MAX_BAD + BLOCKS_AT_ONCE
    modifies test, test.device, test.bad, test.bad.list, buffer
    ensures test.Valid() && (test.bad.list == old(test.bad.list) || fresh(test.bad.list))
    ensures test.count < MAX_BAD + BLOCKS_AT_ONCE
    ensures test.device.writeLog == old(test.device.writeLog) + writes
    ensures test.device.readLog == old(test.device.readLog) + log
    ensures outcome != Abandoned ==> test.tally == AfterReading(AfterWriting(old(test.tally), writes), base, st, log)
    ensures (outcome == Cancelled ==> test.cancelled) && (outcome == TooMany ==> test.count >= MAX_BAD)
    ensures RunWrites(base, st, last, old(test.State(first, BLOCKS_AT_ONCE)), writes) == Some(m)
    ensures |old(test.device.cells)| > 0 && (test.device.complete ==> AllFull(writes))
    ensures !done ==> outcome != Finished && outcome != Abandoned && m == test.State(m.cur, m.size)
    ensures done ==>
              && m.cur == last && RunReads(base, st, last, m.(cur := first, size := BLOCKS_AT_ONCE), log) == Some(end)
              && test.State(end.cur, end.size) == end.(corrupt := test.corrupt)
              && m.corrupt <= test.corrupt <= end.corrupt
              && (if outcome == Abandoned then last >= LIMIT else test.corrupt == end.corrupt)
              && (outcome == Finished ==> end.cur == last) && (outcome == TooMany ==> end.cur < last)
              && (test.device.complete ==> AllHeld(KeptAll(old(test.device.cells), writes), log))
              && (test.device.faithful && !test.device.complete ==> AllAgree(m.written, log))
              && (test.device.whole ==> forall i :: 0 <= i < |log| ==> !Short(log[i]))
  {
    hide List.Blocks, Elements, Sorted, Loaded, Slotted, RunWrites, RunReads, KeptAll, AllFull, Held, Agrees;
    hide Test.Counted, Tallied, AfterWriting, AfterReading;
    log, done := [], false;
    outcome, writes, m := test.WriteScan(buffer, base, st, first, last);
    end := m;
    NothingMore(test.tally, base, st);
    if outcome != Finished { return; }
    done := true;
    outcome, log, end := test.ReadScan(buffer, base, st, first, last);
  }

  /** test_rw, as BadBlocks calls it: from block 0 to `last`. The count is always the size of the list
      and the sum of the counters, each counter the number of blocks that the transfers of the passes tell,
      and the list holds the blocks that failed a transfer or a comparison. When all passes finish, every
      block is listed, was given by a short read of the last pass, or was last read with contents of that
      pass. A faithful device has only its dead blocks listed when the place in the buffer does not matter;
      one that fails no transfer has none listed when it is as large as it says, and its overwritten blocks,
      up to the threshold, when block numbers are stamped. */
  method TestRw(test: Test, kind: int, passes: int, detectFakes: bool, offset: nat, last: nat)
    returns (outcome: Outcome, ghost rounds: seq<Round>, ghost end: Scan)
    requires test.Valid() && test.recover == NONE && test.bad.Blocks() == {} && offset + ID_SIZE <= BLOCK_SIZE
    modifies test, test.device, test.bad, test.bad.list
    ensures test.Valid() && test.count < MAX_BAD + BLOCKS_AT_ONCE
    ensures !(0 <= kind < 5 && 1 <= passes <= 4 && last <= LIMIT) ==> outcome == Cancelled && test.bad.Blocks() == {}
    ensures outcome == Cancelled && 0 <= kind < 5 && 1 <= passes <= 4 && last <= LIMIT ==> test.cancelled
    ensures (outcome == TooMany ==> test.count >= MAX_BAD) && (outcome == Abandoned ==> last >= LIMIT)
    ensures Sound(rounds) && (rounds != [] ==> 0 <= kind < 5 && Filled(kind, detectFakes, offset, rounds))
    ensures test.device.writeLog == old(test.device.writeLog) + AllWrites(rounds)
    ensures test.device.readLog == old(test.device.readLog) + AllReads(rounds)
    ensures outcome != Abandoned ==>
              && test.readErrors == |TallyOf(rounds).unread| && test.writeErrors == |TallyOf(rounds).unwritten|
              && test.corruptions == |TallyOf(rounds).different|
    ensures outcome == Finished ==>
              && 0 <= kind < 5 && 1 <= passes <= 4 && |rounds| == passes
              && LastPass(test, PatternFor(kind, passes - 1), Stamps(detectFakes, offset, passes - 1), last,
                          rounds[passes - 1], end)
    ensures 0 <= kind < 5 && 1 <= passes <= 4 && (kind == 4 ==> passes <= 2) &&
            test.device.faithful && !test.device.complete ==>
              test.bad.Blocks() == test.device.dead
    ensures test.device.complete && (outcome == Finished || outcome == TooMany) ==>
              && (last <= test.device.size ==> test.bad.Blocks() == {})
              && (detectFakes ==> Range(0, Reported(last, test.device.size)) <= test.bad.Blocks())
              && (detectFakes && passes == 1 ==> test.bad.Blocks() == Range(0, Reported(last, test.device.size)))
  {
    hide List.Blocks, Elements, Sorted, Range, Reported, Even, PatternFor, FromTable, PassBuffer;
    hide LastPass, TallyOf, AllWrites, AllReads, Filled, Sound, Underway, Listed, Test.Counted;
    rounds, end := [], test.State(0, 0);
    ghost var sent, back := test.device.writeLog, test.device.readLog;
    NoRounds(test, kind, detectFakes, offset, last);
    if !(0 <= kind < 5 && 1 <= passes <= 4 && last <= LIMIT) { outcome := Cancelled; return; }
    outcome := Finished;
    for p := 0 to passes
      invariant outcome == Finished && |rounds| == p && Sound(rounds) && test.tally == TallyOf(rounds)
      invariant Underway(test, kind, detectFakes, offset, last, rounds, sent, back)
      invariant test.bad.list == old(test.bad.list) || fresh(test.bad.list)
      invariant p > 0 ==>
                  LastPass(test, PatternFor(kind, p - 1), Stamps(detectFakes, offset, p - 1), last, rounds[p - 1], end)
      invariant (kind == 4 ==> passes <= 2) && test.device.faithful && !test.device.complete ==>
                  test.corrupt <= test.device.dead
      invariant Listed(test, detectFakes, last, p)
    {
      var cancel: bool := *;
      if cancel {
        UnderwayEnd(test, kind, detectFakes, offset, last, rounds, sent, back);
        test.cancelled := true;
        outcome := Cancelled;
        return;
      }
      outcome, rounds, end := OnePass(test, kind, detectFakes, offset, last, p, rounds, sent, back);
      if outcome != Finished {
        if outcome == TooMany { ListedSo(test, detectFakes, last, p + 1); }
        UnderwayEnd(test, kind, detectFakes, offset, last, rounds, sent, back);
        return;
      }
    }
    UnderwayEnd(test, kind, detectFakes, offset, last, rounds, sent, back);
    ListedSo(test, detectFakes, last, passes);
  }

  /** The test after some passes, the last of which may have been broken off. */
  ghost predicate Underway(test: Test, kind: nat, detectFakes: bool, offset: nat, last: nat, rounds: seq<Round>,
                           sent: seq<Transfer>, back: seq<Transfer>)
    reads test, test.device, test.bad, test.bad.list
  {
    && test.Valid() && test.count < MAX_BAD + BLOCKS_AT_ONCE && (test.device.complete ==> test.recover == NONE)
    && kind < 5 && Sound(rounds) && Filled(kind, detectFakes, offset, rounds)
    && test.device.writeLog == sent + AllWrites(rounds) && test.device.readLog == back + AllReads(rounds)
  }

  /** The buffer of each pass. */
  ghost predicate Filled(kind: nat, detectFakes: bool, offset: nat, rounds: seq<Round>)
    requires kind < 5
  {
    forall k :: 0 <= k < |rounds| && k < 4 ==>
      rounds[k].st == Stamps(detectFakes, offset, k) && PassBuffer(rounds[k].base, PatternFor(kind, k), rounds[k].st)
  }

  /** The first pass of a check for fake devices stamps block numbers. */
  function Stamps(detectFakes: bool, offset: nat, p: nat): Stamping
  {
    if detectFakes && p == 0 then At(offset) else Plain
  }

  /** What `p` passes leave in the list when no transfer fails. */
  ghost predicate Listed(test: Test, detectFakes: bool, last: nat, p: nat)
    reads test, test.device, test.bad, test.bad.list
  {
    test.device.complete ==>
      && (p == 0 || last <= test.device.size ==> test.bad.Blocks() == {})
      && (detectFakes && p > 0 ==> Range(0, Reported(last, test.device.size)) <= test.bad.Blocks())
      && (detectFakes && p == 1 ==> test.bad.Blocks() == Range(0, Reported(last, test.device.size)))
  }

  /** The last pass finished, and left the test in this state. */
  ghost predicate LastPass(test: Test, pattern: nat, st: Stamping, last: nat, round: Round, end: Scan)
    reads test, test.device
  {
    && Ended(pattern, st, 0, round.base, round.back, end) && end == test.State(last, end.size)
    && (test.device.whole ==> ShortOf(round.back) == {})
  }

  lemma NoRounds(test: Test, kind: int, detectFakes: bool, offset: nat, last: nat)
    requires test.Valid() && test.recover == NONE && test.bad.Blocks() == {}
    ensures Sound([]) && AllWrites([]) == AllReads([]) == [] && test.tally == NOTHING == TallyOf([])
    ensures test.readErrors == test.writeErrors == test.corruptions == 0 == test.count
    ensures 0 <= kind < 5 ==>
              Underway(test, kind, detectFakes, offset, last, [], test.device.writeLog, test.device.readLog)
    ensures Listed(test, detectFakes, last, 0)
  {
    hide List.Blocks, List.Valid, Range;
    var t := test.tally;
    assert t.unread == {} && t.unwritten == {} && t.different == {};
    assert test.device.writeLog + [] == test.device.writeLog && test.device.readLog + [] == test.device.readLog;
  }

  lemma UnderwayEnd(test: Test, kind: nat, detectFakes: bool, offset: nat, last: nat, rounds: seq<Round>,
                    sent: seq<Transfer>, back: seq<Transfer>)
    requires Underway(test, kind, detectFakes, offset, last, rounds, sent, back)
    ensures test.Valid() && test.count < MAX_BAD + BLOCKS_AT_ONCE && kind < 5
    ensures Sound(rounds) && Filled(kind, detectFakes, offset, rounds)
    ensures test.device.writeLog == sent + AllWrites(rounds) && test.device.readLog == back + AllReads(rounds)
    ensures test.readErrors == |test.tally.unread| && test.writeErrors == |test.tally.unwritten|
    ensures test.corruptions == |test.tally.different|
  {
    hide List.Blocks, List.Valid, Filled, Sound, AllWrites, AllReads;
  }

  lemma ListedSo(test: Test, detectFakes: bool, last: nat, p: nat)
    requires Listed(test, detectFakes, last, p) && p > 0
    ensures test.device.complete ==>
              && (last <= test.device.size ==> test.bad.Blocks() == {})
              && (detectFakes ==> Range(0, Reported(last, test.device.size)) <= test.bad.Blocks())
              && (detectFakes && p == 1 ==> test.bad.Blocks() == Range(0, Reported(last, test.device.size)))
  {
    hide List.Blocks, Range, Reported;
  }

  lemma FilledMore(kind: nat, detectFakes: bool, offset: nat, rounds: seq<Round>, r: Round)
    requires kind < 5 && Filled(kind, detectFakes, offset, rounds) && |rounds| < 4
    requires r.st == Stamps(detectFakes, offset, |rounds|) && PassBuffer(r.base, PatternFor(kind, |rounds|), r.st)
    ensures Filled(kind, detectFakes, offset, rounds + [r])
  {
    hide PassBuffer;
  }

  /** The next pass of a test that has finished the passes before it. */
  method OnePass(test: Test, kind: nat, detectFakes: bool, offset: nat, last: nat, p: nat, ghost rounds: seq<Round>,
                 ghost sent: seq<Transfer>, ghost back: seq<Transfer>)
    returns (outcome: Outcome, ghost rounds': seq<Round>, ghost end: Scan)
    requires Underway(test, kind, detectFakes, offset, last, rounds, sent, back)
    requires Sound(rounds) && test.tally == TallyOf(rounds)
    requires p == |rounds| < 4 && offset + ID_SIZE <= BLOCK_SIZE && last <= LIMIT && Listed(test, detectFakes, last, p)
    modifies test, test.device, test.bad, test.bad.list
    ensures Underway(test, kind, detectFakes, offset, last, rounds', sent, back) && |rounds'| == p + 1
    ensures Sound(rounds')
    ensures outcome != Abandoned ==> test.tally == TallyOf(rounds')
    ensures test.bad.list == old(test.bad.list) || fresh(test.bad.list)
    ensures (outcome == Cancelled ==> test.cancelled) && (outcome == TooMany ==> test.count >= MAX_BAD)
    ensures outcome == Abandoned ==> last >= LIMIT
    ensures outcome == Finished ==>
              LastPass(test, PatternFor(kind, p), Stamps(detectFakes, offset, p), last, rounds'[p], end)
    ensures Even(PatternFor(kind, p)) && test.device.faithful && !test.device.complete &&
            old(test.corrupt <= test.device.dead) ==>
              test.corrupt <= test.device.dead
    ensures outcome == Finished || outcome == TooMany ==> Listed(test, detectFakes, last, p + 1)
  {
    hide List.Blocks, Elements, Sorted, Ended, Range, ShortOf, Reported, Even, PatternFor, FromTable, PassBuffer;
    hide TallyOf, AllWrites, AllReads, Filled, Sound, AfterRound, Test.Counted;
    ReportedNone(last, test.device.size);
    ghost var round;
    outcome, round, end := Pass(test, PatternFor(kind, p), Stamps(detectFakes, offset, p), 0, last);
    rounds' := rounds + [round];
    RoundMore(rounds, round);
    FilledMore(kind, detectFakes, offset, rounds, round);
  }

  /** A finished pass from block `first` on: every block is accounted for, and all were compared or are dead
      exactly when no read was short. */
  ghost predicate Ended(pattern: nat, st: Stamping, first: nat, base: seq<Block>, log: seq<Transfer>, end: Scan)
  {
    && PassBuffer(base, pattern, st) && Slotted(base, st) && Accounted(base, st, first, end, ShortOf(log))
    && (Range(first, end.cur) <= ComparedOf(log) + LoneOf(log) <==> forall i :: 0 <= i < |log| ==> !Short(log[i]))
  }
}
