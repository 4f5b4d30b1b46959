/** The data of the bad-block test (src/badblocks.c:330-361 and 479-486): a pattern repeated over a
    buffer of several blocks, and the block number stamped into each block of the first pass. */
module BadBlocksPattern {
  import opened Arithmetic
  import opened HashStream

  type Block = seq<byte>

  // ----- The pattern -----

  /** The digits of a pattern in base 256, the most significant first; 0 has one digit. */
  function Digits(p: nat): (r: seq<byte>)
    ensures |r| > 0
  {
    if p < 256 then [p] else Digits(p / 256) + [p % 256]
  }

  /** Byte `j` of the repeated pattern. */
  function PatternByte(p: nat, j: nat): byte
  {
    Digits(p)[j % |Digits(p)|]
  }

  /** The first loop of pattern_fill: the digits of the pattern, the least significant first. */
  method SplitPattern(pattern: nat) returns (bytes: seq<byte>)
    requires pattern < 0x1_0000_0000
    ensures |bytes| == |Digits(pattern)| <= 4
    ensures forall k :: 0 <= k < |bytes| ==> bytes[k] == Digits(pattern)[|bytes| - 1 - k]
  {
    hide Digits;
    DigitsStep(pattern);
    bytes := [];
    var p: nat := pattern;
    ghost var done: seq<byte> := [];
    assert Digits(pattern) == Digits(p) + done;
    var i := 0;
    while i < 4 && p != 0
      invariant 0 <= i <= 4 && |bytes| == i == |done| && p < Pow256(4 - i) && (i == 0 ==> p == pattern)
      invariant || (i > 0 && p == 0 && done == Digits(pattern))
                || (p != 0 && Digits(pattern) == Digits(p) + done)
                || (i == 0 && p == 0)
      invariant forall k :: 0 <= k < i ==> bytes[k] == done[i - 1 - k]
    {
      DigitsStep(p);
      assert Digits(p / 256) + ([p % 256] + done) == Digits(p / 256) + [p % 256] + done;
      done := [p % 256] + done;
      bytes := bytes + [p % 256];
      p := p / 256;
      i := i + 1;
    }
    if i == 0 {
      bytes := [0];
      assert Digits(pattern) == bytes;
    }
  }

  lemma DigitsStep(p: nat)
    ensures p < 256 ==> Digits(p) == [p % 256]
    ensures p >= 256 ==> p / 256 != 0 && Digits(p) == Digits(p / 256) + [p % 256]
  {
  }

  /** The pattern for which the buffer is filled at random. */
  const RANDOM: nat := 0xFFFF_FFFF

  /** pattern_fill: random bytes, or the digits from the most significant down, over and over. */
  method PatternFill(pattern: nat, n: nat) returns (buffer: array<byte>)
    requires pattern < 0x1_0000_0000
    ensures fresh(buffer) && buffer.Length == n
    ensures pattern != RANDOM ==> forall j :: 0 <= j < n ==> buffer[j] == PatternByte(pattern, j)
  {
    hide Digits;
    buffer := new byte[n];
    if pattern == RANDOM {
      for j := 0 to n {
        var x: int := *;
        buffer[j] := x % 256;
      }
      return;
    }
    var bytes := SplitPattern(pattern);
    var nb := |bytes| - 1;
    var i, j := nb, 0;
    ghost var q := 0;
    while j < n
      invariant 0 <= i <= nb && 0 <= j <= n && j == (nb + 1) * q + (nb - i)
      invariant forall k :: 0 <= k < j ==> buffer[k] == PatternByte(pattern, k)
    {
      buffer[j] := bytes[i];
      ModUnique(j, nb + 1, q, nb - i);
      if i == 0 {
        i := nb;
        q := q + 1;
      } else {
        i := i - 1;
      }
      j := j + 1;
    }
  }

  /** The blocks of the buffer. */
  function Slots(bytes: seq<byte>, size: nat, count: nat): (r: seq<Block>)
    requires |bytes| == count * size
    ensures |r| == count && forall i :: 0 <= i < count ==> |r[i]| == size
    decreases count
  {
    if count == 0 then []
    else
      assert count * size == (count - 1) * size + size;
      assert (count - 1) * size >= 0;
      Slots(bytes[..(count - 1) * size], size, count - 1) + [bytes[(count - 1) * size..]]
  }

  /** All blocks of the buffer are alike. */
  ghost predicate Alike(slots: seq<Block>)
  {
    forall i, j :: 0 <= i < |slots| && 0 <= j < |slots| ==> slots[i] == slots[j]
  }

  lemma SlotAt(bytes: seq<byte>, size: nat, count: nat, i: nat, k: nat)
    requires |bytes| == count * size && i < count && k < size
    ensures 0 <= i * size + k < |bytes| && Slots(bytes, size, count)[i][k] == bytes[i * size + k]
    decreases count
  {
    SlotBound(size, count, i, k);
    if i < count - 1 {
      assert |bytes[..(count - 1) * size]| == (count - 1) * size by { SlotBound(size, count, i, k); }
      SlotAt(bytes[..(count - 1) * size], size, count - 1, i, k);
      SlotBound(size, count - 1, i, k);
    }
  }

  lemma SlotBound(size: nat, count: nat, i: nat, k: nat)
    requires i < count && k < size
    ensures 0 <= i * size && i * size + k < count * size
    ensures 0 <= (count - 1) * size <= count * size == (count - 1) * size + size
  {
    assert i * size <= (count - 1) * size;
  }

  lemma Repeats(p: nat, size: nat, i: nat, k: nat)
    requires Whole(size, |Digits(p)|) && k < size
    ensures 0 <= i * size + k && PatternByte(p, i * size + k) == PatternByte(p, k)
  {
    hide Digits;
    var n := |Digits(p)|;
    assert size == n * (size / n);
    assert i * size == n * (i * (size / n)) by {
      Distribute(i, n, size / n, 0);
      assert n * (i * (size / n)) == (n * i) * (size / n);
    }
    assert k == n * (k / n) + k % n;
    assert n * (i * (size / n)) + n * (k / n) == n * (i * (size / n) + k / n);
    ModUnique(i * size + k, n, i * (size / n) + k / n, k % n);
  }

  /** A pattern whose digits fill a block evenly gives equal blocks. */
  lemma EvenlyAlike(p: nat, bytes: seq<byte>, size: nat, count: nat)
    requires |bytes| == count * size && Whole(size, |Digits(p)|)
    requires forall j :: 0 <= j < |bytes| ==> bytes[j] == PatternByte(p, j)
    ensures Alike(Slots(bytes, size, count))
  {
    hide Digits, PatternByte, Slots;
    var s := Slots(bytes, size, count);
    forall i, j | 0 <= i < count && 0 <= j < count ensures s[i] == s[j] {
      forall k | 0 <= k < size ensures s[i][k] == s[j][k] {
        SlotAt(bytes, size, count, i, k);
        SlotAt(bytes, size, count, j, k);
        Repeats(p, size, i, k);
        Repeats(p, size, j, k);
      }
    }
  }

  const BLOCK_SIZE: nat := 524288
  const BLOCKS_AT_ONCE: nat := 64

  /** The patterns of the five kinds of test, four passes each. */
  const PATTERNS: seq<seq<nat>> := [
    [0x55, 0, 0, 0], [0x55, 0xaa, 0, 0], [0, 0xff, 0x55, 0xaa], [0, 0xff, 0x33, 0xcc], [0, 0xff, 0x1c71c7, 0xe38e38]]

  predicate FromTable(p: nat)
  {
    p == 0x55 || p == 0 || p == 0xaa || p == 0xff || p == 0x33 || p == 0xcc || p == 0x1c71c7 || p == 0xe38e38
  }

  /** The pattern of a pass. */
  function PatternFor(kind: nat, pass: nat): (r: nat)
    requires kind < 5 && pass < 4
    ensures FromTable(r) && r < RANDOM && (Even(r) <==> kind < 4 || pass < 2)
  {
    PATTERNS[kind][pass]
  }

  /** A pattern of the tests for which the place in the buffer does not matter. */
  predicate Even(pattern: nat)
  {
    FromTable(pattern) && pattern != 0x1c71c7 && pattern != 0xe38e38
  }

  lemma ThreeDigits(p: nat)
    requires p == 0x1c71c7 || p == 0xe38e38
    ensures |Digits(p)| == 3 && Digits(p)[0] != Digits(p)[2]
  {
    DigitsStep(p);
    DigitsStep(p / 256);
    DigitsStep(p / 256 / 256);
  }

  /** The blocks of the buffer are alike for every pattern of the tests but the two of three bytes,
      whose period does not divide the size of a block: there a block written from one place of the
      buffer differs from the one it is compared with at another. */
  lemma TableAlike(p: nat, bytes: seq<byte>)
    requires FromTable(p) && |bytes| == BLOCKS_AT_ONCE * BLOCK_SIZE
    requires forall j :: 0 <= j < |bytes| ==> bytes[j] == PatternByte(p, j)
    ensures Alike(Slots(bytes, BLOCK_SIZE, BLOCKS_AT_ONCE)) <==> p != 0x1c71c7 && p != 0xe38e38
  {
    hide Slots, Digits;
    if p < 256 {
      DigitsStep(p);
      EvenlyAlike(p, bytes, BLOCK_SIZE, BLOCKS_AT_ONCE);
    } else {
      TableUnlike(p, bytes);
    }
  }

  /** For the two patterns of three bytes, already the first two blocks of the buffer differ. */
  lemma TableUnlike(p: nat, bytes: seq<byte>)
    requires (p == 0x1c71c7 || p == 0xe38e38) && |bytes| == BLOCKS_AT_ONCE * BLOCK_SIZE
    requires forall j :: 0 <= j < |bytes| ==> bytes[j] == PatternByte(p, j)
    ensures Slots(bytes, BLOCK_SIZE, BLOCKS_AT_ONCE)[0] != Slots(bytes, BLOCK_SIZE, BLOCKS_AT_ONCE)[1]
  {
    hide Slots, Digits;
    ThreeDigits(p);
    SlotAt(bytes, BLOCK_SIZE, BLOCKS_AT_ONCE, 0, 0);
    SlotAt(bytes, BLOCK_SIZE, BLOCKS_AT_ONCE, 1, 0);
    assert PatternByte(p, 0) == Digits(p)[0] && PatternByte(p, BLOCK_SIZE) == Digits(p)[2];
  }

  // ----- The block number -----

  function LittleEndian(n: nat, size: nat): (r: seq<byte>)
    ensures |r| == size
  {
    if size == 0 then [] else [n % 256] + LittleEndian(n / 256, size - 1)
  }

  lemma {:induction false} LittleEndianInjective(a: nat, b: nat, size: nat)
    requires a < Pow256(size) && b < Pow256(size) && LittleEndian(a, size) == LittleEndian(b, size)
    ensures a == b
  {
    if size > 0 {
      var x, y := LittleEndian(a, size), LittleEndian(b, size);
      assert x[0] == y[0] && x[1..] == LittleEndian(a / 256, size - 1) && y[1..] == LittleEndian(b / 256, size - 1);
      LittleEndianInjective(a / 256, b / 256, size - 1);
    }
  }

  const ID_SIZE: nat := 8

  /** A block with a block number at an offset. */
  function Stamp(p: Block, offset: nat, b: nat): (r: Block)
    requires offset + ID_SIZE <= |p|
    ensures |r| == |p|
  {
    p[..offset] + LittleEndian(b, ID_SIZE) + p[offset + ID_SIZE..]
  }

  /** Blocks that differ in their number differ, wherever else they agree or not. */
  lemma StampInjective(p: Block, q: Block, offset: nat, a: nat, b: nat)
    requires offset + ID_SIZE <= |p| && |p| == |q| && a < TWO_64 && b < TWO_64
    requires Stamp(p, offset, a) == Stamp(q, offset, b)
    ensures a == b
  {
    hide LittleEndian;
    var x, y := Stamp(p, offset, a), Stamp(q, offset, b);
    assert x[offset..offset + ID_SIZE] == LittleEndian(a, ID_SIZE);
    assert y[offset..offset + ID_SIZE] == LittleEndian(b, ID_SIZE);
    assert Pow256(ID_SIZE) == TWO_64;
    LittleEndianInjective(a, b, ID_SIZE);
  }
}
