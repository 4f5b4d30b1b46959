/** The write and read scans of the bad-block test (src/badblocks.c:254-287 and 407-567): the list, the
    counters and the loops, each scan proved to be a run of BadBlocksScan. */
module BadBlocks {
  import opened Wrappers
  import opened Arithmetic
  import opened BadBlocksPattern
  import opened BadBlocksDevice
  import opened BadBlocksContents
  import opened BadBlocksScan
  import opened BadBlocksTally
  import opened BadList

  /** One petabyte, in blocks. */
  const LIMIT: nat := 0x8000_0000

  /** How a scan ends: at the last block, at a request to cancel, at the threshold of bad blocks, or at
      the assertion on the size of the disk. */
  datatype Outcome = Finished | Cancelled | TooMany | Abandoned

  /** What the kind of device says about a transfer it gave. */
  ghost predicate ReadAs(device: Device, cells: seq<Block>, written: map<nat, Block>, t: Transfer)
  {
    && (device.complete ==> |cells| > 0 && t.data == Held(cells, t.first, t.n))
    && (device.whole ==> !Short(t))
    && (device.faithful && !device.complete ==> Agrees(written, t))
  }

  class Test {
    const device: Device
    const bad: List
    var readErrors: nat
    var writeErrors: nat
    var corruptions: nat
    var count: nat
    var recover: nat
    /** Whether the user asked to cancel. */
    var cancelled: bool
    /** The blocks that were read and found different. */
    ghost var corrupt: set<nat>
    /** The blocks listed, by what they were first reported for. */
    ghost var tally: Tally

    constructor (device: Device, bad: List)
      requires device.Valid() && device.dead == {} && bad.Valid() && bad.Blocks() == {}
      ensures this.device == device && this.bad == bad && Valid() && recover == NONE && count == 0 && corrupt == {}
      ensures tally == NOTHING
    {
      this.device, this.bad := device, bad;
      readErrors, writeErrors, corruptions, count, recover, cancelled := 0, 0, 0, 0, NONE, false;
      corrupt, tally := {}, NOTHING;
    }

    /** Each counter is the number of blocks first reported for its kind, and the count is the size of the
        list and the sum of the counters. */
    ghost predicate Counted()
      reads this`readErrors, this`writeErrors, this`corruptions, this`count, this`tally, bad, bad.list
    {
      && bad.Valid() && count == |bad.Blocks()| == readErrors + writeErrors + corruptions
      && Apart(tally) && All(tally) == bad.Blocks()
      && readErrors == |tally.unread| && writeErrors == |tally.unwritten| && corruptions == |tally.different|
    }

    /** The list holds the blocks that failed a transfer of their own or a comparison, and no others. */
    ghost predicate Valid()
      reads this, device, bad, bad.list
    {
      device.Valid() && Counted() && bad.Blocks() == device.dead + corrupt
    }

    lemma CountIs()
      requires Valid()
      ensures count == |device.dead + corrupt|
    {
      hide List.Blocks, List.Valid, All, Apart;
    }

    ghost function State(cur: nat, size: nat): Scan
      reads this, device
    {
      Scan(cur, size, recover, device.dead, corrupt, device.written, device.seen)
    }

    /** bb_output */
    method Report(blk: nat, kind: Kind)
      requires Counted()
      modifies this`readErrors, this`writeErrors, this`corruptions, this`count, this`tally, bad, bad.list
      ensures Counted() && bad.Blocks() == old(bad.Blocks()) + {blk} && tally == Tallied(old(tally), kind, {blk})
      ensures bad.list == old(bad.list) || fresh(bad.list)
      ensures old(count) <= count <= old(count) + 1
    {
      hide Elements, Sorted, List.Blocks, List.Valid, Tallied, All, Apart;
      var k := bad.Find(blk);
      TalliedOne(tally, kind, blk);
      if k < 0 {
        NewSize(bad.Blocks(), blk);
        bad.Add(blk);
        count := count + 1;
        match kind
        case ReadError => readErrors := readErrors + 1;
        case WriteError => writeErrors := writeErrors + 1;
        case Corruption => corruptions := corruptions + 1;
      } else {
        assert bad.Blocks() + {blk} == bad.Blocks();
      }
      tally := Tallied(tally, kind, {blk});
    }

    lemma NewSize(s: set<nat>, x: nat)
      ensures x !in s ==> |s + {x}| == |s| + 1
    {
    }

    /** The end of an iteration: what a short transfer, and the end of a recovery, do to the size of the
        next one. */
    method Adjust(cur: nat, got: nat, tryout: nat, atOnce: nat) returns (next: nat)
      requires got <= cur
      modifies this`recover
      ensures next == if got != tryout then 1 else if cur == old(recover) then atOnce else tryout
      ensures recover ==
        if got != tryout then (if old(recover) == NONE then cur - got + atOnce else old(recover))
        else if cur == old(recover) then NONE else old(recover)
    {
      next := tryout;
      if got != tryout {
        next := 1;
        if recover == NONE { recover := cur - got + atOnce; }
      } else if cur == recover {
        next := atOnce;
        recover := NONE;
      }
    }

    /** What both scans do after a transfer. */
    method Settle(cur: nat, got: nat, tryout: nat, atOnce: nat, kind: Kind, ghost s: Scan)
      returns (next: nat, nextSize: nat)
      requires Counted() && device.Valid() && got <= tryout && s.cur == cur && s.recover == recover
      requires device.dead + corrupt == bad.Blocks() + Lone(cur, got, tryout)
      modifies this`readErrors, this`writeErrors, this`corruptions, this`count, this`tally, this`recover, bad, bad.list
      ensures Valid() && (bad.list == old(bad.list) || fresh(bad.list))
      ensures bad.Blocks() == old(bad.Blocks()) + Lone(cur, got, tryout)
      ensures tally == Tallied(old(tally), kind, Lone(cur, got, tryout))
      ensures old(count) <= count <= old(count) + if got == 0 && tryout == 1 then 1 else 0
      ensures
        var m := Settled(s, got, tryout, atOnce);
        next == m.cur && nextSize == m.size && recover == m.recover
    {
      hide Elements, Sorted, List.Blocks, Counted, Tallied;
      TalliedNone(tally, kind);
      next := cur;
      if got == 0 && tryout == 1 {
        Report(cur, kind);
        next := next + 1;
      }
      next := next + got;
      nextSize := Adjust(next, got, tryout, atOnce);
    }

    // ----- The write scan -----

    /** Stamp and write the blocks from `cur` on. */
    method WriteChunk(buffer: array<Block>, ghost base: seq<Block>, st: Stamping, cur: nat, n: nat) returns (got: nat)
      requires device.Valid() && Slotted(base, st) && Loaded(buffer[..], base, st) && 0 < n <= buffer.Length
      modifies device, buffer
      ensures device.Valid() && Loaded(buffer[..], base, st) && got <= n
      ensures device.seen == old(device.seen) && device.readLog == old(device.readLog)
      ensures
        var data := Chunk(base, st, cur, got);
        && device.writeLog == old(device.writeLog) + [Transfer(cur, n, data)]
        && device.written == Noted(old(device.written), cur, data)
        && (device.complete ==> got == n && device.cells == Kept(old(device.cells), cur, data))
      ensures device.dead == old(device.dead) + Lone(cur, got, n)
    {
      hide Content, Like, Kept, Loaded, Noted;
      LoadedSize(buffer[..], base, st);
      StampNumbers(buffer, base, st, cur);
      LoadedSize(buffer[..], base, st);
      assert buffer[..n] == Chunk(base, st, cur, n);
      got := device.Write(cur, buffer[..n]);
      ChunkPrefix(base, st, cur, n, got);
    }

    /** One iteration of the write scan: the next transfer of a run. */
    method WriteStep(buffer: array<Block>, ghost base: seq<Block>, st: Stamping, last: nat, cur: nat, size: nat)
      returns (next: nat, nextSize: nat, ghost t: Transfer)
      requires Valid() && Slotted(base, st) && Loaded(buffer[..], base, st)
      requires count < MAX_BAD && Below(device.dead, corrupt)
      requires cur < last && 0 < size <= buffer.Length && (buffer as object) != (bad.list as object)
      modifies this, device, bad, bad.list, buffer
      ensures Valid() && Loaded(buffer[..], base, st) && (bad.list == old(bad.list) || fresh(bad.list))
      ensures count <= MAX_BAD && device.readLog == old(device.readLog) && device.writeLog == old(device.writeLog) + [t]
      ensures Writes(base, st, last, old(State(cur, size)), t)
      ensures State(next, nextSize) == Wrote(old(State(cur, size)), t, buffer.Length)
      ensures device.complete ==> |t.data| == t.n && device.cells == Kept(old(device.cells), t.first, t.data)
      ensures tally == Tallied(old(tally), WriteError, Lone(t.first, |t.data|, t.n))
    {
      hide Content, Like, Kept, Loaded, Elements, Sorted, Chunk, List.Blocks, Noted, Settled, Below, Counted, Tallied;
      var tryout := Min(size, last - cur);
      LoadedSize(buffer[..], base, st);
      ghost var s := State(cur, size);
      var got := WriteChunk(buffer, base, st, cur, tryout);
      ChunkSize(base, st, cur, got);
      t := Transfer(cur, tryout, Chunk(base, st, cur, got));
      next, nextSize := Settle(cur, got, tryout, buffer.Length, WriteError, s);
      SettledRest(s, got, tryout, buffer.Length);
    }

    /** The write scan: a run of writes, up to the last block when it finishes. On a complete device every
        transfer is full and the cells hold all of them. */
    method WriteScan(buffer: array<Block>, ghost base: seq<Block>, st: Stamping, first: nat, last: nat)
      returns (outcome: Outcome, ghost log: seq<Transfer>, ghost end: Scan)
      requires Valid() && Slotted(base, st) && Loaded(buffer[..], base, st) && first <= last
      requires (buffer as object) != (bad.list as object) && count < MAX_BAD + buffer.Length
      modifies this, device, bad, bad.list, buffer
      ensures Valid() && Loaded(buffer[..], base, st) && (bad.list == old(bad.list) || fresh(bad.list))
      ensures count < MAX_BAD + buffer.Length && device.readLog == old(device.readLog)
      ensures device.writeLog == old(device.writeLog) + log && end == State(end.cur, end.size)
      ensures RunWrites(base, st, last, old(State(first, buffer.Length)), log) == Some(end)
      ensures outcome != Abandoned && (outcome == Cancelled ==> cancelled) && (outcome == TooMany ==> count >= MAX_BAD)
      ensures outcome == Finished ==> end.cur == last
      ensures device.complete ==> AllFull(log) && device.cells == KeptAll(old(device.cells), log)
      ensures tally == AfterWriting(old(tally), log)
    {
      hide Loaded, Elements, Sorted, List.Blocks, Writes, Wrote, Kept, Counted, Tallied, AfterWriting;
      LoadedSize(buffer[..], base, st);
      var cur, size := first, buffer.Length;
      ghost var start, cells := State(cur, size), device.cells;
      log := [];
      NothingMore(tally, base, st);
      while cur < last
        invariant first <= cur <= last && 0 < size <= buffer.Length
        invariant Valid() && Loaded(buffer[..], base, st) && (bad.list == old(bad.list) || fresh(bad.list))
        invariant (buffer as object) != (bad.list as object) && count < MAX_BAD + buffer.Length
        invariant tally == AfterWriting(old(tally), log)
        invariant device.readLog == old(device.readLog) && device.writeLog == old(device.writeLog) + log
        invariant RunWrites(base, st, last, start, log) == Some(State(cur, size))
        invariant device.complete ==> AllFull(log) && device.cells == KeptAll(cells, log)
        decreases last - cur, size
      {
        var cancel: bool := *;
        if cancel {
          cancelled := true;
          return Cancelled, log, State(cur, size);
        }
        if count >= MAX_BAD { return TooMany, log, State(cur, size); }
        CountIs();
        ghost var s := State(cur, size);
        ghost var t: Transfer;
        cur, size, t := WriteStep(buffer, base, st, last, cur, size);
        WritesMore(base, st, last, start, log, s, t);
        WriteProgress(base, st, last, s, t);
        KeptAllMore(cells, log, t);
        WritingMore(old(tally), log, t);
        log := log + [t];
      }
      outcome, end := Finished, State(cur, size);
    }

    // ----- The read scan -----

    /** Stamp the buffer again and read the blocks from `cur` on. */
    method ReadChunk(buffer: array<Block>, ghost base: seq<Block>, st: Stamping, cur: nat, n: nat)
      returns (data: seq<Block>)
      requires device.Valid() && Slotted(base, st) && Loaded(buffer[..], base, st) && 0 < n <= buffer.Length
      modifies device, buffer
      ensures device.Valid() && Loaded(buffer[..], base, st) && device.cells == old(device.cells)
      ensures device.written == old(device.written) && device.writeLog == old(device.writeLog)
      ensures |data| <= n && buffer[..n] == Chunk(base, st, cur, n)
      ensures device.seen == Noted(old(device.seen), cur, data)
      ensures device.dead == old(device.dead) + Lone(cur, |data|, n)
      ensures device.readLog == old(device.readLog) + [Transfer(cur, n, data)]
      ensures ReadAs(device, device.cells, device.written, Transfer(cur, n, data))
    {
      hide Content, Like, Loaded, Noted, Cell;
      LoadedSize(buffer[..], base, st);
      StampNumbers(buffer, base, st, cur);
      LoadedSize(buffer[..], base, st);
      assert buffer[..n] == Chunk(base, st, cur, n);
      data := device.Read(cur, n);
      if device.complete {
        forall i | 0 <= i < n ensures data[i] == Held(device.cells, cur, n)[i] { HeldAt(device.cells, cur, n, i); }
      }
    }

    /** A block found different. */
    method Mismatch(blk: nat)
      requires Valid()
      modifies this`readErrors, this`writeErrors, this`corruptions, this`count, this`corrupt, this`tally, bad, bad.list
      ensures Valid() && (bad.list == old(bad.list) || fresh(bad.list))
      ensures old(count) <= count <= old(count) + 1
      ensures corrupt == old(corrupt) + {blk} && bad.Blocks() == old(bad.Blocks()) + {blk}
      ensures tally == Tallied(old(tally), Corruption, {blk})
    {
      hide Elements, Sorted, Counted, Tallied;
      Report(blk, Corruption);
      corrupt := corrupt + {blk};
    }

    /** The comparison of a chunk that was read in full. */
    method Compare(buffer: seq<Block>, data: seq<Block>, at: nat) returns (ok: bool)
      requires Valid() && |data| <= |buffer|
      modifies this`readErrors, this`writeErrors, this`corruptions, this`count, this`corrupt, this`tally, bad, bad.list
      ensures Valid() && (bad.list == old(bad.list) || fresh(bad.list))
      ensures old(count) <= count <= old(count) + |data| && old(bad.Blocks()) <= bad.Blocks()
      ensures ok ==> corrupt == old(corrupt) + Differing(data, buffer, at)
      ensures ok ==> bad.Blocks() == old(bad.Blocks()) + Differing(data, buffer, at)
      ensures old(corrupt) <= corrupt <= old(corrupt) + Differing(data, buffer, at)
      ensures !ok ==> at + |data| >= LIMIT
      ensures ok ==> tally == Tallied(old(tally), Corruption, Differing(data, buffer, at))
    {
      hide Elements, Sorted, Differing, Counted, List.Blocks, Tallied;
      DifferingFirst(data, buffer, at, 0);
      TalliedNone(tally, Corruption);
      for i := 0 to |data|
        invariant Valid() && (bad.list == old(bad.list) || fresh(bad.list))
        invariant old(count) <= count <= old(count) + i
        invariant corrupt == old(corrupt) + Differing(data[..i], buffer, at)
        invariant bad.Blocks() == old(bad.Blocks()) + Differing(data[..i], buffer, at)
        invariant tally == Tallied(old(tally), Corruption, Differing(data[..i], buffer, at))
      {
        DifferingFirst(data, buffer, at, i);
        DifferingPrefix(data, buffer, at, i);
        if data[i] != buffer[i] {
          if at + |data| >= LIMIT { return false; }
          TalliedTwice(old(tally), Corruption, Differing(data[..i], buffer, at), {at + i});
          Mismatch(at + i);
        } else {
          assert Differing(data[..i], buffer, at) + {} == Differing(data[..i], buffer, at);
        }
      }
      assert data[..|data|] == data;
      ok := true;
    }

    method CompareChunk(buffer: seq<Block>, data: seq<Block>, cur: nat, ghost base: seq<Block>, ghost st: Stamping)
      returns (ok: bool)
      requires Valid() && Slotted(base, st) && |data| <= |base| && buffer == Chunk(base, st, cur, |data|)
      modifies this`readErrors, this`writeErrors, this`corruptions, this`count, this`corrupt, this`tally, bad, bad.list
      ensures Valid() && (bad.list == old(bad.list) || fresh(bad.list)) && count <= old(count) + |data|
      ensures old(corrupt) <= corrupt <= old(corrupt) + Found(base, st, cur, data)
      ensures if ok then corrupt == old(corrupt) + Found(base, st, cur, data) else cur + |data| >= LIMIT
      ensures ok ==> tally == Tallied(old(tally), Corruption, Found(base, st, cur, data))
    {
      hide Elements, Sorted, List.Blocks, Differing, Counted, Chunk, Tallied;
      ChunkSize(base, st, cur, |data|);
      ok := Compare(buffer, data, cur);
    }

    /** One iteration of the read scan: the next transfer of a run. A comparison that is given up leaves
        some of the differing blocks unlisted. */
    method ReadStep(buffer: array<Block>, ghost base: seq<Block>, st: Stamping, last: nat, cur: nat, size: nat)
      returns (next: nat, nextSize: nat, ok: bool, ghost t: Transfer)
      requires Valid() && Slotted(base, st) && Loaded(buffer[..], base, st)
      requires count < MAX_BAD && Below(device.dead, corrupt)
      requires cur < last && 0 < size <= buffer.Length && (buffer as object) != (bad.list as object)
      modifies this, device, bad, bad.list, buffer
      ensures Valid() && Loaded(buffer[..], base, st) && (bad.list == old(bad.list) || fresh(bad.list))
      ensures count < MAX_BAD + buffer.Length && device.cells == old(device.cells)
      ensures device.written == old(device.written) && device.writeLog == old(device.writeLog)
      ensures device.readLog == old(device.readLog) + [t] && ReadAs(device, device.cells, device.written, t)
      ensures Made(old(State(cur, size)), t, last, buffer.Length) && buffer.Length == |base|
      ensures
        var m := Read(base, st, old(State(cur, size)), t);
        && State(next, nextSize) == m.(corrupt := corrupt)
        && old(corrupt) <= corrupt <= m.corrupt && (if ok then corrupt == m.corrupt else next >= LIMIT)
      ensures ok ==> tally == Tallied(Tallied(old(tally), ReadError, Lone(t.first, |t.data|, t.n)), Corruption,
                                      FoundPart(base, st, t))
    {
      hide Content, Like, Loaded, Elements, Sorted, Chunk, List.Blocks, Noted, Found, ReadAs, Settled, Below, Counted;
      hide Tallied;
      var tryout := Min(size, last - cur);
      LoadedSize(buffer[..], base, st);
      ghost var s := State(cur, size);
      var data := ReadChunk(buffer, base, st, cur, tryout);
      t := Transfer(cur, tryout, data);
      next, nextSize := Settle(cur, |data|, tryout, buffer.Length, ReadError, s);
      SettledRest(s, |data|, tryout, buffer.Length);
      SettledMoves(s, |data|, tryout, buffer.Length);
      ok := true;
      TalliedNone(tally, Corruption);
      if |data| == tryout {
        ok := CompareChunk(buffer[..tryout], data, cur, base, st);
      }
    }

    /** The read scan: a run of reads, up to the last block when it finishes. When it is abandoned, some
        of the blocks the last transfer found different may be missing. */
    method ReadScan(buffer: array<Block>, ghost base: seq<Block>, st: Stamping, first: nat, last: nat)
      returns (outcome: Outcome, ghost log: seq<Transfer>, ghost end: Scan)
      requires Valid() && Slotted(base, st) && Loaded(buffer[..], base, st) && first <= last
      requires (buffer as object) != (bad.list as object) && count < MAX_BAD + buffer.Length
      modifies this, device, bad, bad.list, buffer
      ensures Valid() && (bad.list == old(bad.list) || fresh(bad.list)) && device.cells == old(device.cells)
      ensures count < MAX_BAD + buffer.Length && device.written == old(device.written)
      ensures device.writeLog == old(device.writeLog)
      ensures device.readLog == old(device.readLog) + log
      ensures forall k :: 0 <= k < |log| ==> ReadAs(device, device.cells, device.written, log[k])
      ensures RunReads(base, st, last, old(State(first, buffer.Length)), log) == Some(end)
      ensures State(end.cur, end.size) == end.(corrupt := corrupt) && old(corrupt) <= corrupt <= end.corrupt
      ensures if outcome == Abandoned then last >= LIMIT else corrupt == end.corrupt
      ensures (outcome == Cancelled ==> cancelled) && (outcome == TooMany ==> count >= MAX_BAD && end.cur < last)
      ensures outcome == Finished ==> end.cur == last
      ensures outcome != Abandoned ==> tally == AfterReading(old(tally), base, st, log)
    {
      hide Loaded, Elements, Sorted, List.Blocks, Made, Read, ReadAs, Counted, Tallied, AfterReading;
      LoadedSize(buffer[..], base, st);
      var cur, size := first, buffer.Length;
      ghost var start := State(cur, size);
      log := [];
      NothingMore(tally, base, st);
      while cur < last
        invariant first <= cur <= last && 0 < size <= buffer.Length
        invariant tally == AfterReading(old(tally), base, st, log)
        invariant Valid() && Loaded(buffer[..], base, st) && (bad.list == old(bad.list) || fresh(bad.list))
        invariant (buffer as object) != (bad.list as object) && count < MAX_BAD + buffer.Length
        invariant device.cells == old(device.cells) && device.written == old(device.written)
        invariant device.writeLog == old(device.writeLog) && device.readLog == old(device.readLog) + log
        invariant forall k :: 0 <= k < |log| ==> ReadAs(device, device.cells, device.written, log[k])
        invariant RunReads(base, st, last, start, log) == Some(State(cur, size)) && old(corrupt) <= corrupt
        decreases last - cur, size
      {
        var cancel: bool := *;
        if cancel {
          cancelled := true;
          return Cancelled, log, State(cur, size);
        }
        if count >= MAX_BAD { return TooMany, log, State(cur, size); }
        CountIs();
        ghost var s := State(cur, size);
        ghost var t: Transfer;
        var ok: bool;
        cur, size, ok, t := ReadStep(buffer, base, st, last, cur, size);
        MadeThere(s, t, last, |base|);
        end := Read(base, st, s, t);
        ReadsMore(base, st, last, start, log, s, t);
        ReadsPass(base, st, last, start, log);
        if ok { ReadingMore(old(tally), base, st, log, t, first); }
        ReadProgress(base, st, last, s, t);
        log := log + [t];
        if !ok { return Abandoned, log, end; }
      }
      outcome, end := Finished, State(cur, size);
    }
  }
}
