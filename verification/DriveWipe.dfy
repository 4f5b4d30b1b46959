/** The zeroing branch of WriteDrive (src/format.c:1162-1281): a drive is overwritten block by block,
    with retries; in fast mode blocks that read as empty are skipped, and reading is throttled. */
module DriveWipe {
  import opened Arithmetic

  const WRITE_RETRIES: nat := 4
  const DD_BUFFER_SIZE: nat := 0x200_0000

  // ----- The drive -----

  /** A drive with its file pointer. A call that fails may leave the pointer anywhere, and may have
      written any of the bytes it was given room for. */
  class Drive {
    var bytes: seq<byte>
    var pos: nat
    /** Whether a call failed or was short, or the user cancelled. */
    var trouble: bool

    /** SetFilePointerEx */
    method Seek(at: nat) returns (ok: bool)
      modifies this`pos, this`trouble
      ensures if ok then pos == at && trouble == old(trouble) else trouble
    {
      ok := *;
      if ok { pos := at; } else { trouble := true; }
    }

    /** CHECK_FOR_USER_CANCEL */
    method Cancelled() returns (cancel: bool)
      modifies this`trouble
      ensures trouble == (old(trouble) || cancel)
    {
      cancel := *;
      if cancel { trouble := true; }
    }

    /** ReadFile */
    method Read(n: nat) returns (ok: bool, data: seq<byte>)
      modifies this`pos, this`trouble
      ensures trouble == (old(trouble) || !ok || |data| != n)
      ensures ok && |data| == n ==>
        old(pos) + n <= |bytes| && data == bytes[old(pos)..old(pos) + n] && pos == old(pos) + n
    {
      ok := *;
      var count: int := *;
      if ok && 0 <= count <= n && pos + count <= |bytes| {
        data := bytes[pos..pos + count];
        pos := pos + count;
      } else {
        ok, data, pos := false, [], if count >= 0 then count else 0;
      }
      if !ok || |data| != n { trouble := true; }
    }

    /** WriteFile */
    method Write(data: seq<byte>) returns (ok: bool, count: nat)
      modifies this
      ensures |bytes| == |old(bytes)| && trouble == (old(trouble) || !ok || count != |data|)
      ensures forall k :: 0 <= k < |bytes| && !(old(pos) <= k < old(pos) + |data|) ==> bytes[k] == old(bytes)[k]
      ensures ok && count == |data| ==>
        && pos == old(pos) + |data| <= |bytes|
        && forall k :: old(pos) <= k < old(pos) + |data| ==> bytes[k] == data[k - old(pos)]
    {
      ok, count := *, *;
      if ok && count == |data| && pos + |data| <= |bytes| {
        bytes := bytes[..pos] + data + bytes[pos + |data|..];
        pos := pos + |data|;
      } else {
        var other: seq<byte>, p: nat := *, *;
        ok := false;
        bytes := seq(|bytes|, k requires 0 <= k < |bytes| reads this =>
          if pos <= k < pos + |data| && k < |other| then other[k] else bytes[k]);
        pos := p;
      }
      if !ok || count != |data| { trouble := true; }
    }
  }

  // ----- The test for an empty block -----

  /** The 32-bit word `i` of a buffer. */
  function Word(data: seq<byte>, i: nat): nat
    requires 4 * i + 4 <= |data|
  {
    var a: int, b: int, c: int, d: int := data[4 * i], data[4 * i + 1], data[4 * i + 2], data[4 * i + 3];
    a + 0x100 * b + 0x1_0000 * c + 0x100_0000 * d
  }

  predicate Uniform(data: seq<byte>, x: byte)
  {
    forall k :: 0 <= k < |data| ==> data[k] == x
  }

  lemma WordUniform(data: seq<byte>, i: nat)
    requires 4 * i + 4 <= |data|
    ensures Word(data, i) == 0 <==> Uniform(data[4 * i..4 * i + 4], 0)
    ensures Word(data, i) == 0xFFFF_FFFF <==> Uniform(data[4 * i..4 * i + 4], 0xFF)
  {
    var w := data[4 * i..4 * i + 4];
    assert w[0] == data[4 * i] && w[1] == data[4 * i + 1] && w[2] == data[4 * i + 2] && w[3] == data[4 * i + 3];
  }

  lemma UniformNext(data: seq<byte>, i: nat, x: byte)
    requires 4 * i + 4 <= |data|
    ensures Uniform(data[..4 * i + 4], x) <==> Uniform(data[..4 * i], x) && Uniform(data[4 * i..4 * i + 4], x)
  {
    var a, b, c := data[..4 * i + 4], data[..4 * i], data[4 * i..4 * i + 4];
    assert a == b + c;
    if Uniform(a, x) {
      forall k | 0 <= k < |c| ensures c[k] == x { assert c[k] == a[4 * i + k]; }
    }
  }

  /** All whole words of the block are zeros, or all are ones. */
  predicate WordsEmpty(data: seq<byte>)
  {
    var whole := data[..4 * (|data| / 4)];
    Uniform(whole, 0) || Uniform(whole, 0xFF)
  }

  /** The comparison of a block with its first word. */
  method IsEmpty(data: seq<byte>) returns (empty: bool)
    requires |data| >= 4
    ensures empty <==> WordsEmpty(data)
  {
    hide Word, Uniform;
    var words := |data| / 4;
    var zero := Word(data, 0);
    ghost var whole := data[..4 * words];
    WordUniform(data, 0);
    UniformNext(data, 0, 0);
    UniformNext(data, 0, 0xFF);
    Small(data);
    assert whole[..4] == data[..4];
    if zero != 0 && zero != 0xFFFF_FFFF {
      UniformPart(whole, 4, 0);
      UniformPart(whole, 4, 0xFF);
      return false;
    }
    ghost var x: byte := if zero == 0 then 0 else 0xFF;
    var i := 1;
    while i < words && Word(data, i) == zero
      invariant 1 <= i <= words && Uniform(data[..4 * i], x)
    {
      WordUniform(data, i);
      UniformNext(data, i, x);
      i := i + 1;
    }
    empty := i >= words;
    if i < words {
      WordUniform(data, i);
      UniformNext(data, i, x);
      assert whole[..4 * i + 4] == data[..4 * i + 4] && whole[..4 * i] == data[..4 * i];
      UniformPart(whole, 4 * i + 4, x);
      Clash(whole, 4 * i, x);
    }
  }

  /** The test finds exactly the uniform blocks when their size is a multiple of four; otherwise it does
      not look at the last bytes. */
  lemma TestExactly(n: nat)
    requires n >= 4
    ensures (forall data: seq<byte> :: |data| == n ==>
               (WordsEmpty(data) <==> Uniform(data, 0) || Uniform(data, 0xFF))) <==> Whole(n, 4)
  {
    if Whole(n, 4) {
      forall data: seq<byte> | |data| == n ensures WordsEmpty(data) <==> Uniform(data, 0) || Uniform(data, 0xFF) {
        assert data[..4 * (n / 4)] == data;
      }
    } else {
      var data: seq<byte> := seq(n, i => if i < 4 * (n / 4) then 0 else 7);
      assert WordsEmpty(data) && data[0] == 0 && data[n - 1] == 7;
    }
  }

  lemma Small(data: seq<byte>)
    requires |data| >= 4
    ensures Uniform(data[..0], 0) && Uniform(data[..0], 0xFF)
  {
  }

  lemma UniformPart(data: seq<byte>, k: nat, x: byte)
    requires k <= |data|
    ensures Uniform(data, x) ==> Uniform(data[..k], x)
  {
  }

  lemma Clash(data: seq<byte>, k: nat, x: byte)
    requires 0 < k <= |data| && Uniform(data[..k], x)
    ensures forall y: byte :: y != x ==> !Uniform(data, y)
  {
    assert data[..k][0] == data[0];
  }

  // ----- The loop -----

  /** The block of the wipe that byte `p` falls in. */
  function BlockOf(p: nat, size: nat): nat
    requires size > 0
  {
    p / size
  }

  /** What has been processed: all zeros, or in fast mode blocks of all zeros or all ones. */
  ghost predicate Wiped(bytes: seq<byte>, end: nat, size: nat, fast: bool)
    requires end <= |bytes| && size > 0
  {
    && (forall p :: 0 <= p < end ==> bytes[p] == 0 || (fast && bytes[p] == 0xFF))
    && (forall p, q :: 0 <= p < end && 0 <= q < end && BlockOf(p, size) == BlockOf(q, size) ==> bytes[p] == bytes[q])
  }

  lemma SameBlock(p: nat, q: nat, at: nat, size: nat)
    requires size > 0 && Whole(at, size) && p < at <= q
    ensures BlockOf(p, size) != BlockOf(q, size)
  {
    assert at == size * (at / size);
    if BlockOf(p, size) == BlockOf(q, size) {
      var d := BlockOf(p, size);
      NextMultiple(size, d, at / size);
    }
  }

  lemma NextMultiple(size: nat, d: int, e: int)
    requires size * d < size * e
    ensures size * d + size <= size * e
  {
    var k := e - d;
    assert size * e == size * d + size * k;
    if k >= 1 { assert size * k == size + size * (k - 1) && size * (k - 1) >= 0; }
  }

  /** One more block, uniform. */
  lemma WipedNext(before: seq<byte>, bytes: seq<byte>, at: nat, n: nat, size: nat, fast: bool, x: byte)
    requires size > 0 && at + n <= |bytes| == |before| && Whole(at, size) && Wiped(before, at, size, fast)
    requires forall p :: 0 <= p < at ==> bytes[p] == before[p]
    requires (forall p :: at <= p < at + n ==> bytes[p] == x) && (x == 0 || (fast && x == 0xFF))
    ensures Wiped(bytes, at + n, size, fast)
  {
    hide BlockOf;
    forall p, q | 0 <= p < at + n && 0 <= q < at + n && BlockOf(p, size) == BlockOf(q, size)
      ensures bytes[p] == bytes[q] {
      if p < at <= q { SameBlock(p, q, at, size); }
      if q < at <= p { SameBlock(q, p, at, size); }
    }
  }

  /** A block is written, with retries; nothing outside it changes, provided the pointer is at it. */
  method WriteBlock(drive: Drive, at: nat, n: nat, x: byte) returns (ok: bool)
    modifies drive
    ensures |drive.bytes| == |old(drive.bytes)| && (old(drive.trouble) || !ok ==> drive.trouble)
    ensures old(drive.pos) == at ==>
              && (forall k :: 0 <= k < |drive.bytes| && !(at <= k < at + n) ==> drive.bytes[k] == old(drive.bytes)[k])
              && (ok ==> drive.pos == at + n <= |drive.bytes| && forall k :: at <= k < at + n ==> drive.bytes[k] == x)
  {
    var i := 1;
    while i <= WRITE_RETRIES
      invariant |drive.bytes| == |old(drive.bytes)| && (old(drive.pos) == at ==> drive.pos == at)
      invariant (old(drive.trouble) || i > 1 ==> drive.trouble) && i <= WRITE_RETRIES
      invariant old(drive.pos) == at ==>
        forall k :: 0 <= k < |drive.bytes| && !(at <= k < at + n) ==> drive.bytes[k] == old(drive.bytes)[k]
    {
      var cancel := drive.Cancelled();
      if cancel { return false; }
      var s, count := drive.Write(seq(n, _ => x));
      if s && count == n { return true; }
      if i == WRITE_RETRIES { return false; }
      var sought := drive.Seek(at);
      if !sought { return false; }
      i := i + 1;
    }
    ok := false;
  }

  /** The test of fast mode: whether the block at the pointer can be skipped. When it cannot, the
      pointer is moved back. */
  method SkipBlock(drive: Drive, at: nat, n: nat) returns (ok: bool, skip: bool)
    requires n >= 4
    modifies drive`pos, drive`trouble
    ensures old(drive.trouble) || !ok ==> drive.trouble
    ensures ok && old(drive.pos) == at ==>
              && at + n <= |drive.bytes| && drive.pos == (if skip then at + n else at)
              && (skip ==> WordsEmpty(drive.bytes[at..at + n]))
  {
    hide WordsEmpty;
    var s, data := drive.Read(n);
    if !s || |data| != n { return false, false; }
    skip := IsEmpty(data);
    ok := true;
    if !skip {
      ok := drive.Seek(at);
    }
  }

  /** The size of the next block: it is not to pass the end, and is rounded up to whole sectors. */
  method NextSize(at: nat, size: nat, target: nat, sector: nat) returns (n: nat)
    requires at < target && sector > 0 && size > 0 && Whole(size, sector)
    ensures n == if at + size > target then RoundUp(target - at, sector) else size
    ensures 0 < n <= size && Whole(n, sector)
  {
    hide Whole, RoundUp;
    n := size;
    if at + n > target { n := target - at; }
    RoundUpIs(n, sector);
    RoundUpLeast(n, sector, size);
    if !Whole(n, sector) { n := RoundUp(n, sector); }
  }

  /** Blocks follow each other up to the last sector of the target. */
  lemma NextBlock(wb: nat, n: nat, size: nat, target: nat, sector: nat)
    requires wb < target && sector >= 512 && size > 0 && Whole(size, sector) && Whole(wb, size)
    requires 0 < n <= size && Whole(n, sector) && n == if wb + size > target then RoundUp(target - wb, sector) else size
    ensures wb + n < target ==> n == size && Whole(wb + n, size)
    ensures wb + n <= RoundUp(target, sector) && n >= 4 && (Whole(sector, 4) ==> Whole(n, 4))
  {
    hide Whole, RoundUp;
    WholeSum(wb, size, size);
    WholeOfWhole(wb, size, sector);
    if Whole(sector, 4) { WholeOfWhole(n, sector, 4); }
    WholeFirst(n, sector);
    RoundUpIs(target - wb, sector);
    RoundUpIs(target, sector);
    WholeSum(wb, RoundUp(target, sector) - wb, sector);
    RoundUpLeast(target - wb, sector, RoundUp(target, sector) - wb);
  }

  /** A block that was skipped is uniform as it stands. */
  lemma SkippedNext(bytes: seq<byte>, at: nat, n: nat, size: nat, fast: bool)
    requires size > 0 && at + n <= |bytes| && Whole(at, size) && Wiped(bytes, at, size, fast) && fast
    requires n >= 4 && Whole(n, 4) && WordsEmpty(bytes[at..at + n])
    ensures Wiped(bytes, at + n, size, fast)
  {
    hide BlockOf, Wiped;
    TestExactly(n);
    var x: byte := if Uniform(bytes[at..at + n], 0) then 0 else 0xFF;
    forall p | at <= p < at + n ensures bytes[p] == x { assert bytes[p] == bytes[at..at + n][p - at]; }
    WipedNext(bytes, bytes, at, n, size, fast, x);
  }

  lemma WipedUpTo(bytes: seq<byte>, end: nat, target: nat, size: nat, fast: bool)
    requires size > 0 && target <= end <= |bytes| && Wiped(bytes, end, size, fast)
    ensures Wiped(bytes, target, size, fast)
  {
  }

  /** The byte that blocks are filled with. */
  function Filler(fast: bool): byte
  {
    if fast then 0xFF else 0
  }

  /** What holds before each block: the pointer is at it, nothing has changed from there on, and what came
      before was filled or, in fast mode, left alone. */
  ghost predicate Underway(bytes: seq<byte>, before: seq<byte>, pos: nat, wb: nat, limit: nat, fast: bool)
  {
    && pos == wb <= limit && wb <= |bytes| == |before|
    && (forall k :: wb <= k < |bytes| ==> bytes[k] == before[k])
    && forall k :: 0 <= k < wb ==> bytes[k] == Filler(fast) || (fast && bytes[k] == before[k])
  }

  /** One block of the loop. What is skipped is known to be uniform if it is whole words. */
  method WipeBlock(drive: Drive, wb: nat, n: nat, throttle: nat, fast: bool, ghost before: seq<byte>,
                   ghost size: nat, ghost limit: nat)
    returns (ok: bool, next: nat)
    requires n >= 4 && size > 0 && Whole(wb, size) && wb + n <= limit
    modifies drive
    ensures |drive.bytes| == |old(drive.bytes)| && (old(drive.trouble) || !ok ==> drive.trouble)
    ensures ok && Underway(old(drive.bytes), before, old(drive.pos), wb, limit, fast) ==>
              && Underway(drive.bytes, before, drive.pos, wb + n, limit, fast)
              && (Wiped(old(drive.bytes), wb, size, fast) && (fast ==> Whole(n, 4)) ==>
                    Wiped(drive.bytes, wb + n, size, fast))
    ensures Underway(old(drive.bytes), before, old(drive.pos), wb, limit, fast) ==>
              forall k :: 0 <= k < |drive.bytes| && limit <= k ==> drive.bytes[k] == before[k]
  {
    hide Whole, WordsEmpty, Wiped;
    ghost var was := drive.bytes;
    ghost var inPlace := Underway(drive.bytes, before, drive.pos, wb, limit, fast);
    ok, next := true, throttle;
    if throttle > 0 {
      next := throttle - 1;
    } else if fast {
      var cancel := drive.Cancelled();
      if cancel { return false, next; }
      var skip;
      ok, skip := SkipBlock(drive, wb, n);
      if !ok { return; }
      if skip {
        if inPlace && Wiped(was, wb, size, fast) && Whole(n, 4) { SkippedNext(was, wb, n, size, fast); }
        return;
      }
      next := 15;
    }
    var x := Filler(fast);
    ok := WriteBlock(drive, wb, n, x);
    if ok && inPlace && Wiped(was, wb, size, fast) { WipedNext(was, drive.bytes, wb, n, size, fast, x); }
  }

  /** The zeroing branch. When it completes and the initial rewind succeeded, every byte up to the target
      is zero, or in fast mode, if sectors are whole words, every block is all zeros or all ones; in
      fast mode a byte is as it was, or one of a block of ones that was written; and nothing changed beyond
      the last sector of the target. */
  method ZeroDrive(drive: Drive, target: nat, sector: nat, fast: bool) returns (done: bool, rewound: bool)
    modifies drive
    ensures |drive.bytes| == |old(drive.bytes)| && (sector < 512 ==> !done && drive.bytes == old(drive.bytes))
    ensures !drive.trouble && sector >= 512 ==> done && rewound
    ensures done && rewound ==> target <= |drive.bytes| && sector > 0
    ensures done && rewound ==> forall k :: 0 <= k < target ==>
              drive.bytes[k] == Filler(fast) || (fast && drive.bytes[k] == old(drive.bytes)[k])
    ensures done && rewound && (fast ==> Whole(sector, 4)) ==>
              Wiped(drive.bytes, target, RoundUp(DD_BUFFER_SIZE, sector), fast)
    ensures rewound && sector > 0 ==>
              forall k :: 0 <= k < |drive.bytes| && RoundUp(target, sector) <= k ==>
                drive.bytes[k] == old(drive.bytes)[k]
  {
    hide Whole, RoundUp, Wiped;
    if sector < 512 { return false, false; }
    rewound := drive.Seek(0);
    RoundUpIs(DD_BUFFER_SIZE, sector);
    var size, n, wb, throttle := RoundUp(DD_BUFFER_SIZE, sector), RoundUp(DD_BUFFER_SIZE, sector), 0, 0;
    ghost var limit, before := RoundUp(target, sector), drive.bytes;
    ghost var words := fast ==> Whole(sector, 4);
    WholeSum(0, 0, size);
    WipedNone(drive.bytes, size, fast);
    while wb < target
      invariant |drive.bytes| == |before| && 0 < n <= size && Whole(n, sector) && (!rewound ==> drive.trouble)
      invariant wb < target ==> n == size && Whole(wb, size)
      invariant rewound ==>
        Underway(drive.bytes, before, drive.pos, wb, limit, fast) && (words ==> Wiped(drive.bytes, wb, size, fast))
      decreases target - wb
    {
      n := NextSize(wb, n, target, sector);
      NextBlock(wb, n, size, target, sector);
      var ok;
      ok, throttle := WipeBlock(drive, wb, n, throttle, fast, before, size, limit);
      if !ok { return false, rewound; }
      wb := wb + n;
    }
    if rewound && words { WipedUpTo(drive.bytes, wb, target, size, fast); }
    done := true;
  }

  lemma WipedNone(bytes: seq<byte>, size: nat, fast: bool)
    requires size > 0
    ensures Wiped(bytes, 0, size, fast)
  {
  }
}
