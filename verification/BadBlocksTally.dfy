/** The three counters of the bad-block test (src/badblocks.c:254-287, 573-600): each bad block is counted
    once, for what it was first reported. What they amount to is told by the transfers of the run. */
module BadBlocksTally {
  import opened Wrappers
  import opened BadBlocksPattern
  import opened BadBlocksDevice
  import opened BadBlocksContents
  import opened BadBlocksScan

  datatype Kind = ReadError | WriteError | Corruption

  /** The bad blocks, by what they were first reported for. */
  datatype Tally = Tally(unread: set<nat>, unwritten: set<nat>, different: set<nat>)

  const NOTHING: Tally := Tally({}, {}, {})

  function All(t: Tally): set<nat>
  {
    t.unread + t.unwritten + t.different
  }

  /** No block is counted twice. */
  predicate Apart(t: Tally)
  {
    t.unread !! t.unwritten && t.unread !! t.different && t.unwritten !! t.different
  }

  /** After a report of the blocks: those not yet known are counted under its kind. */
  function Tallied(t: Tally, kind: Kind, blocks: set<nat>): Tally
  {
    var added := blocks - All(t);
    match kind
    case ReadError => t.(unread := t.unread + added)
    case WriteError => t.(unwritten := t.unwritten + added)
    case Corruption => t.(different := t.different + added)
  }

  lemma TalliedAll(t: Tally, kind: Kind, blocks: set<nat>)
    requires Apart(t)
    ensures Apart(Tallied(t, kind, blocks)) && All(Tallied(t, kind, blocks)) == All(t) + blocks
  {
  }

  /** One block more, and the sizes of the three sets. */
  lemma TalliedOne(t: Tally, kind: Kind, blk: nat)
    requires Apart(t)
    ensures
      var u, n := Tallied(t, kind, {blk}), if blk in All(t) then 0 else 1;
      && Apart(u) && All(u) == All(t) + {blk}
      && |u.unread| == |t.unread| + (if kind == ReadError then n else 0)
      && |u.unwritten| == |t.unwritten| + (if kind == WriteError then n else 0)
      && |u.different| == |t.different| + (if kind == Corruption then n else 0)
  {
    hide All, Apart;
    TalliedAll(t, kind, {blk});
    SetGains(t.unread, blk, All(t));
    SetGains(t.unwritten, blk, All(t));
    SetGains(t.different, blk, All(t));
    Parts(t);
  }

  lemma Parts(t: Tally)
    ensures t.unread <= All(t) && t.unwritten <= All(t) && t.different <= All(t)
  {
  }

  lemma SetGains(s: set<nat>, blk: nat, all: set<nat>)
    ensures s <= all ==> |s + ({blk} - all)| == |s| + if blk in all then 0 else 1
  {
    if s <= all {
      if blk in all { assert s + ({blk} - all) == s; } else { assert {blk} - all == {blk}; }
    }
  }

  lemma TalliedNone(t: Tally, kind: Kind)
    ensures Tallied(t, kind, {}) == t
  {
    assert {} - All(t) == {};
  }

  lemma TalliedTwice(t: Tally, kind: Kind, a: set<nat>, b: set<nat>)
    ensures Tallied(Tallied(t, kind, a), kind, b) == Tallied(t, kind, a + b)
  {
    var x, y := Tallied(Tallied(t, kind, a), kind, b), Tallied(t, kind, a + b);
    assert x.unread == y.unread && x.unwritten == y.unwritten && x.different == y.different;
  }

  // ----- From the logs -----

  /** The blocks of a transfer that were compared and differ. */
  ghost function FoundPart(base: seq<Block>, st: Stamping, t: Transfer): set<nat>
    requires Slotted(base, st)
  {
    if |t.data| == t.n <= |base| then Found(base, st, t.first, t.data) else {}
  }

  ghost function FoundOf(base: seq<Block>, st: Stamping, log: seq<Transfer>): set<nat>
    requires Slotted(base, st)
    decreases |log|
  {
    if log == [] then {} else FoundOf(base, st, log[..|log| - 1]) + FoundPart(base, st, log[|log| - 1])
  }

  /** What a run of reads finds different. */
  lemma {:induction false} ReadsFind(base: seq<Block>, st: Stamping, last: nat, s: Scan, log: seq<Transfer>)
    requires Slotted(base, st) && RunReads(base, st, last, s, log).Some?
    ensures RunReads(base, st, last, s, log).value.corrupt == s.corrupt + FoundOf(base, st, log)
    decreases |log|
  {
    hide RunReads, Found;
    if log == [] {
      RunNothing(base, st, last, s);
    } else {
      var m := LastRead(base, st, last, s, log);
      ReadsFind(base, st, last, s, log[..|log| - 1]);
      MadeThere(m, log[|log| - 1], last, |base|);
    }
  }

  lemma RunNothing(base: seq<Block>, st: Stamping, last: nat, s: Scan)
    requires Slotted(base, st)
    ensures RunReads(base, st, last, s, []) == Some(s) && RunWrites(base, st, last, s, []) == Some(s)
  {
  }

  lemma {:induction false} FoundCompared(base: seq<Block>, st: Stamping, log: seq<Transfer>)
    requires Slotted(base, st)
    ensures FoundOf(base, st, log) <= ComparedOf(log)
    decreases |log|
  {
    hide Range, Chunk;
    if log != [] {
      var t := log[|log| - 1];
      FoundCompared(base, st, log[..|log| - 1]);
      FoundInside(base, st, t);
    }
  }

  lemma FoundInside(base: seq<Block>, st: Stamping, t: Transfer)
    requires Slotted(base, st)
    ensures |t.data| == t.n ==> FoundPart(base, st, t) <= Range(t.first, t.first + t.n)
  {
    if |t.data| == t.n <= |base| { ChunkSize(base, st, t.first, t.n); }
  }

  /** What a run of writes, or of reads, adds to the tally. */
  ghost function AfterWriting(t: Tally, log: seq<Transfer>): Tally
  {
    Tallied(t, WriteError, LoneOf(log))
  }

  ghost function AfterReading(t: Tally, base: seq<Block>, st: Stamping, log: seq<Transfer>): Tally
    requires Slotted(base, st)
  {
    Tallied(Tallied(t, ReadError, LoneOf(log)), Corruption, FoundOf(base, st, log))
  }

  /** One transfer more. */
  lemma WritingMore(t: Tally, log: seq<Transfer>, x: Transfer)
    ensures AfterWriting(t, log + [x]) == Tallied(AfterWriting(t, log), WriteError, Lone(x.first, |x.data|, x.n))
  {
    hide Tallied, LoneOf;
    LogSets(log + [x]);
    assert (log + [x])[..|log|] == log;
    TalliedTwice(t, WriteError, LoneOf(log), Lone(x.first, |x.data|, x.n));
  }

  lemma ReadingMore(t: Tally, base: seq<Block>, st: Stamping, log: seq<Transfer>, x: Transfer, first: nat)
    requires Slotted(base, st) && Passed(first, x.first, log)
    ensures AfterReading(t, base, st, log + [x]) ==
      Tallied(Tallied(AfterReading(t, base, st, log), ReadError, Lone(x.first, |x.data|, x.n)), Corruption,
              FoundPart(base, st, x))
  {
    hide Tallied, LoneOf, FoundPart, Passed;
    var lone := Lone(x.first, |x.data|, x.n);
    LogSets(log + [x]);
    assert (log + [x])[..|log|] == log;
    FoundEarlier(base, st, log, x.first, first);
    Interleave(t, LoneOf(log), FoundOf(base, st, log), lone, FoundPart(base, st, x));
  }

  lemma FoundEarlier(base: seq<Block>, st: Stamping, log: seq<Transfer>, cur: nat, first: nat)
    requires Slotted(base, st) && Passed(first, cur, log)
    ensures cur !in FoundOf(base, st, log)
  {
    hide FoundOf, ComparedOf, LoneOf, ShortOf;
    FoundCompared(base, st, log);
  }

  lemma Interleave(t: Tally, a: set<nat>, b: set<nat>, c: set<nat>, d: set<nat>)
    requires b !! c
    ensures Tallied(Tallied(Tallied(Tallied(t, ReadError, a), Corruption, b), ReadError, c), Corruption, d) ==
            Tallied(Tallied(t, ReadError, a + c), Corruption, b + d)
  {
    var x := Tallied(Tallied(Tallied(Tallied(t, ReadError, a), Corruption, b), ReadError, c), Corruption, d);
    var y := Tallied(Tallied(t, ReadError, a + c), Corruption, b + d);
    assert x.unread == y.unread && x.unwritten == y.unwritten && x.different == y.different;
  }

  lemma NothingMore(t: Tally, base: seq<Block>, st: Stamping)
    requires Slotted(base, st)
    ensures AfterWriting(t, []) == t && AfterReading(t, base, st, []) == t
  {
    hide Tallied;
    TalliedNone(t, WriteError);
    TalliedNone(t, ReadError);
    TalliedNone(t, Corruption);
  }

  // ----- Passes -----

  /** The buffer and the transfers of a pass. */
  datatype Round = Round(base: seq<Block>, st: Stamping, sent: seq<Transfer>, back: seq<Transfer>)

  ghost predicate Sound(rounds: seq<Round>)
  {
    forall k :: 0 <= k < |rounds| ==> Slotted(rounds[k].base, rounds[k].st)
  }

  ghost function AfterRound(t: Tally, r: Round): Tally
    requires Slotted(r.base, r.st)
  {
    AfterReading(AfterWriting(t, r.sent), r.base, r.st, r.back)
  }

  /** The tally after some passes. */
  ghost function TallyOf(rounds: seq<Round>): Tally
    requires Sound(rounds)
    decreases |rounds|
  {
    if rounds == [] then NOTHING
    else
      AfterRound(TallyOf(rounds[..|rounds| - 1]), rounds[|rounds| - 1])
  }

  function AllWrites(rounds: seq<Round>): seq<Transfer>
    decreases |rounds|
  {
    if rounds == [] then [] else AllWrites(rounds[..|rounds| - 1]) + rounds[|rounds| - 1].sent
  }

  function AllReads(rounds: seq<Round>): seq<Transfer>
    decreases |rounds|
  {
    if rounds == [] then [] else AllReads(rounds[..|rounds| - 1]) + rounds[|rounds| - 1].back
  }

  lemma RoundMore(rounds: seq<Round>, r: Round)
    requires Sound(rounds) && Slotted(r.base, r.st)
    ensures Sound(rounds + [r])
    ensures TallyOf(rounds + [r]) == AfterRound(TallyOf(rounds), r)
    ensures AllWrites(rounds + [r]) == AllWrites(rounds) + r.sent
    ensures AllReads(rounds + [r]) == AllReads(rounds) + r.back
  {
    hide AfterRound;
    assert (rounds + [r])[..|rounds|] == rounds;
  }

  /** In a first pass: a write error for each block that could not be written alone, a read error for each
      that could be written and not be read alone, and a corruption for each block that was compared and
      differs and could be written. */
  lemma FirstPassTally(r: Round)
    requires Slotted(r.base, r.st) && LoneOf(r.back) !! ComparedOf(r.back)
    ensures Sound([r])
    ensures TallyOf([r]) == Tally(LoneOf(r.back) - LoneOf(r.sent), LoneOf(r.sent),
                                  FoundOf(r.base, r.st, r.back) - LoneOf(r.sent))
  {
    hide LoneOf, FoundOf, ComparedOf;
    FoundCompared(r.base, r.st, r.back);
    assert Sound([]);
    RoundMore([], r);
    assert [] + [r] == [r];
    var t := TallyOf([r]);
    assert t.unread == LoneOf(r.back) - LoneOf(r.sent) && t.unwritten == LoneOf(r.sent);
    assert t.different == FoundOf(r.base, r.st, r.back) - LoneOf(r.sent);
  }
}
