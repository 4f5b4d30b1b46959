/** Streaming hash contexts (src/hash.c): data is written in pieces of any size, whole blocks are
    folded into the state as they fill up, and the end of the message is padded in place. The code
    of SHA-1, SHA-256 and SHA-512 differs only in the sizes of a block and of the length field,
    and in the block function, which is left uninterpreted. */
module HashStream {
  import opened Arithmetic

  /** A block function with its sizes and its initial state. */
  datatype Algorithm<!S> = Algorithm(block: nat, lenSize: nat, f: (S, seq<byte>) -> S, init: S)

  /** The sizes of section 5.1.1 (SHA-1, SHA-256) and 5.1.2 (SHA-512) of FIPS 180-4. */
  predicate Standard<S>(alg: Algorithm<S>)
  {
    (alg.block == 64 && alg.lenSize == 8) || (alg.block == 128 && alg.lenSize == 16)
  }

  /** The block function applied to each whole block of a message in turn. */
  function FoldBlocks<S>(alg: Algorithm<S>, s: S, m: seq<byte>): S
    requires alg.block > 0
    decreases |m|
  {
    if |m| < alg.block then s else FoldBlocks(alg, alg.f(s, m[..alg.block]), m[alg.block..])
  }

  /** Folding a message in two parts, the first of which is whole blocks. */
  lemma {:induction false} FoldAppend<S>(alg: Algorithm<S>, s: S, a: seq<byte>, b: seq<byte>)
    requires alg.block > 0 && Whole(|a|, alg.block)
    ensures FoldBlocks(alg, s, a + b) == FoldBlocks(alg, FoldBlocks(alg, s, a), b)
    decreases |a|
  {
    hide Whole;
    if a == [] {
      assert a + b == b;
    } else {
      WholeFirst(|a|, alg.block);
      assert (a + b)[..alg.block] == a[..alg.block] && (a + b)[alg.block..] == a[alg.block..] + b;
      FoldAppend(alg, alg.f(s, a[..alg.block]), a[alg.block..], b);
    }
  }

  lemma FoldOne<S>(alg: Algorithm<S>, s: S, a: seq<byte>, b: seq<byte>)
    requires alg.block > 0 && Whole(|a|, alg.block) && |b| == alg.block
    ensures FoldBlocks(alg, s, a + b) == alg.f(FoldBlocks(alg, s, a), b)
    ensures Whole(|a + b|, alg.block)
  {
    WholeSum(|a|, |b|, alg.block);
    FoldAppend(alg, s, a, b);
    assert b[..alg.block] == b && b[alg.block..] == [];
  }

  // ----- Padding -----

  function Zeros(n: nat): (r: seq<byte>)
    ensures |r| == n
  {
    seq(n, _ => 0)
  }

  function Pow256(n: nat): nat
  {
    if n == 0 then 1 else 256 * Pow256(n - 1)
  }

  /** `n` as `size` bytes, most significant first; what does not fit is lost. */
  function BigEndian(n: nat, size: nat): (r: seq<byte>)
    ensures |r| == size
  {
    if size == 0 then [] else BigEndian(n / 256, size - 1) + [n % 256]
  }

  lemma Bound(a: nat, b: nat, v: nat)
    requires v < b
    ensures 0 <= a * v <= a * b - a
  {
    assert a * v <= a * (b - 1);
  }

  lemma DivDiv(n: nat, a: nat, b: nat)
    requires a > 0 && b > 0
    ensures a * b > 0 && (n / a) / b == n / (a * b)
  {
    var q, r := n / a, n % a;
    var u, v := q / b, q % b;
    Distribute(a, b, u, v);
    Bound(a, b, v);
    Quotients(n, a, b, q, r, u, v);
  }

  lemma Quotients(n: nat, a: nat, b: nat, q: nat, r: nat, u: nat, v: nat)
    requires a > 0 && b > 0 && n == a * q + r && q == b * u + v && r < a
    requires a * q == (a * b) * u + a * v && 0 <= a * v <= a * b - a
    ensures a * b > 0 && n / (a * b) == u
  {
    ModUnique(n, a * b, u, a * v + r);
  }

  lemma {:induction false} PowSum(a: nat, b: nat)
    ensures Pow256(a) > 0 && Pow256(a + b) == Pow256(a) * Pow256(b)
  {
    if a > 0 { PowSum(a - 1, b); }
  }

  /** The bytes of a big-endian number, counted from the least significant one. */
  lemma {:induction false} BigEndianAt(n: nat, size: nat, k: nat)
    requires k < size
    ensures Pow256(k) > 0 && BigEndian(n, size)[size - 1 - k] == (n / Pow256(k)) % 256
    decreases size
  {
    PowSum(k, 0);
    if k > 0 {
      BigEndianAt(n / 256, size - 1, k - 1);
      PowSum(k - 1, 0);
      DivDiv(n, 256, Pow256(k - 1));
    }
  }

  /** The low bytes of a number do not depend on what is above 64 bits. */
  lemma LowBytes(n: nat, k: nat)
    requires k < 8
    ensures Pow256(k) > 0 && ((n % TWO_64) / Pow256(k)) % 256 == (n / Pow256(k)) % 256
  {
    PowSum(k, 8 - k);
    PowSum(1, 7 - k);
    var q, r := n / TWO_64, n % TWO_64;
    assert Pow256(8) == TWO_64 && Pow256(1) == 256;
    LowDigit(n, Pow256(k), Pow256(7 - k), q, r);
  }

  lemma LowDigit(n: nat, p: nat, c: nat, q: nat, r: nat)
    requires p > 0 && n == (p * (256 * c)) * q + r
    ensures (r / p) % 256 == (n / p) % 256
  {
    var x, y := r / p, r % p;
    Distribute(p, 256 * c, q, x);
    assert n == p * ((256 * c) * q + x) + y;
    ModUnique(n, p, (256 * c) * q + x, y);
    assert (256 * c) * q == 256 * (c * q);
    ModUnique(256 * (c * q) + x, 256, c * q + x / 256, x % 256);
  }

  /** The bytes above 64 bits. */
  lemma HighBytes(n: nat, k: nat)
    ensures Pow256(k) > 0 && Pow256(8 + k) > 0 && ((n / TWO_64) / Pow256(k)) % 256 == (n / Pow256(8 + k)) % 256
  {
    PowSum(8, k);
    PowSum(k, 0);
    assert Pow256(8) == TWO_64;
    DivDiv(n, TWO_64, Pow256(k));
  }

  /** The number of zero bytes between the mark and the length. */
  function ZeroCount<S>(alg: Algorithm<S>, n: nat): nat
    requires Standard(alg)
  {
    (alg.block - alg.lenSize - 1 - n) % alg.block
  }

  /** The least number of zeros that leaves room for exactly the length in the last block. */
  lemma ZeroCountLeast<S>(alg: Algorithm<S>, n: nat, k: nat)
    requires Standard(alg)
    ensures Whole(n + 1 + ZeroCount(alg, n) + alg.lenSize, alg.block)
    ensures Whole(n + 1 + k + alg.lenSize, alg.block) ==> ZeroCount(alg, n) <= k
  {
    if alg.block == 64 { Zeros64(n, k); } else { Zeros128(n, k); }
  }

  lemma Zeros64(n: nat, k: nat)
    ensures (n + 1 + (55 - n) % 64 + 8) % 64 == 0 && ((n + 1 + k + 8) % 64 == 0 ==> (55 - n) % 64 <= k)
  {
  }

  lemma Zeros128(n: nat, k: nat)
    ensures (n + 1 + (111 - n) % 128 + 16) % 128 == 0 && ((n + 1 + k + 16) % 128 == 0 ==> (111 - n) % 128 <= k)
  {
  }

  /** The padded message. */
  function Padded<S>(alg: Algorithm<S>, m: seq<byte>): (r: seq<byte>)
    requires Standard(alg)
    ensures Whole(|r|, alg.block)
  {
    ZeroCountLeast(alg, |m|, 0);
    m + [0x80] + Zeros(ZeroCount(alg, |m|)) + BigEndian(8 * |m|, alg.lenSize)
  }

  /** The digest state of a message. */
  function Digest<S>(alg: Algorithm<S>, m: seq<byte>): S
    requires Standard(alg)
  {
    FoldBlocks(alg, alg.init, Padded(alg, m))
  }

  // ----- Contexts -----

  /** The state after a message that has been written but not finished: its whole blocks are folded,
      and the `rest` bytes after them are in the buffer. */
  ghost predicate Absorbs<S(!new)>(alg: Algorithm<S>, m: seq<byte>, rest: nat, state: S, bytecount: nat, buf: seq<byte>)
    requires alg.block > 0
  {
    && bytecount == |m| % TWO_64
    && rest <= |m| && rest <= |buf| && Whole(|m| - rest, alg.block)
    && state == FoldBlocks(alg, alg.init, m[..|m| - rest])
    && buf[..rest] == m[|m| - rest..]
  }

  /** The counter wraps around, but what it says about the buffer does not change. */
  lemma CounterRest<S>(alg: Algorithm<S>, n: nat, rest: nat)
    requires Standard(alg) && rest < alg.block && rest <= n && Whole(n - rest, alg.block)
    ensures (n % TWO_64) % alg.block == rest
  {
    var c := if alg.block == 64 then 0x400_0000_0000_0000 else 0x200_0000_0000_0000;
    var q, h := (n - rest) / alg.block, n / TWO_64;
    WrapQuotient(alg.block, c, q, h, n, rest);
    ModUnique(n % TWO_64, alg.block, q - c * h, rest);
  }

  lemma WrapQuotient(b: nat, c: nat, q: int, h: int, n: nat, rest: nat)
    requires b * c == TWO_64 && n == b * q + rest && h == n / TWO_64
    ensures n % TWO_64 == b * (q - c * h) + rest
  {
    assert b * (c * h) == TWO_64 * h;
    assert b * (q - c * h) == b * q - b * (c * h);
  }

  lemma CounterAdds(a: nat, b: nat)
    ensures (a % TWO_64 + b) % TWO_64 == (a + b) % TWO_64
  {
  }

  class Context<S(!new)> {
    const alg: Algorithm<S>
    var state: S
    var bytecount: nat
    const buf: array<byte>

    ghost predicate Valid()
    {
      Standard(alg) && buf.Length == 128
    }

    /** The context has been given the message so far. */
    ghost predicate Holds(m: seq<byte>)
      requires Valid()
      reads this, buf
    {
      Absorbs(alg, m, bytecount % alg.block, state, bytecount, buf[..])
    }

    constructor (alg: Algorithm<S>)
      requires Standard(alg)
      ensures Valid() && this.alg == alg && fresh(buf) && Holds([])
    {
      this.alg := alg;
      state := alg.init;
      bytecount := 0;
      buf := new byte[128](_ => 0);
    }

    /** memcpy into the buffer. */
    method Copy(at: nat, data: seq<byte>)
      requires at + |data| <= buf.Length
      modifies buf
      ensures buf[..] == old(buf[..at]) + data + old(buf[at + |data|..])
    {
      for k := 0 to |data|
        invariant forall j :: 0 <= j < buf.Length ==>
          buf[j] == if at <= j < at + k then data[j - at] else old(buf[j])
      {
        buf[at + k] := data[k];
      }
    }

    /** Appends the first bytes of the data to what is in the buffer. */
    method Append(num: nat, data: seq<byte>, size: nat, ghost m: seq<byte>)
      requires num <= |m| && size <= |data| && num + size <= buf.Length && buf[..num] == m[|m| - num..]
      modifies buf
      ensures buf[..num + size] == (m + data)[|m| - num..|m| + size]
    {
      Copy(num, data[..size]);
      assert (m + data)[|m| - num..|m| + size] == m[|m| - num..] + data[..size];
    }

    /** sha1_write, sha256_write, sha512_write. With `accelerated`, all whole blocks are handed over at
        once. */
    method Write(data: seq<byte>, accelerated: bool, ghost m: seq<byte>)
      requires Valid() && Holds(m)
      modifies this, buf
      ensures Holds(m + data)
    {
      hide Whole, FoldBlocks;
      var num := bytecount % alg.block;
      bytecount := (bytecount + |data|) % TWO_64;
      CounterAdds(|m|, |data|);
      var at := 0;
      assert (m + data)[..|m| - num] == m[..|m| - num];
      if num != 0 {
        if |data| < alg.block - num {
          WriteLittle(num, data, m);
          return;
        }
        at := alg.block - num;
        FinishBlock(num, data, m);
      }
      WriteTail(data, at, accelerated, m);
    }

    /** Data that does not fill the block that was begun. */
    method WriteLittle(num: nat, data: seq<byte>, ghost m: seq<byte>)
      requires Valid() && num + |data| < alg.block && num <= |m| && Whole(|m| - num, alg.block)
      requires bytecount == |m + data| % TWO_64
      requires buf[..num] == m[|m| - num..] && state == FoldBlocks(alg, alg.init, m[..|m| - num])
      modifies buf
      ensures Holds(m + data)
    {
      hide Whole, FoldBlocks;
      assert (m + data)[..|m| - num] == m[..|m| - num];
      Append(num, data, |data|, m);
      CounterRest(alg, |m + data|, num + |data|);
    }

    /** From a block boundary on: the whole blocks, then the rest into the buffer. */
    method WriteTail(data: seq<byte>, from: nat, accelerated: bool, ghost m: seq<byte>)
      requires Valid() && from <= |data| && Whole(|m| + from, alg.block) && bytecount == |m + data| % TWO_64
      requires state == FoldBlocks(alg, alg.init, (m + data)[..|m| + from])
      modifies this`state, buf
      ensures Holds(m + data)
    {
      hide Whole, FoldBlocks;
      var at := WriteBlocks(data, from, accelerated, m);
      Copy(0, data[at..]);
      assert data[at..] == (m + data)[|m| + at..];
      CounterRest(alg, |m + data|, |data| - at);
    }

    /** A block that was begun by an earlier write. */
    method FinishBlock(num: nat, data: seq<byte>, ghost m: seq<byte>)
      requires Valid() && num < alg.block <= num + |data| && num <= |m| && Whole(|m| - num, alg.block)
      requires buf[..num] == m[|m| - num..] && state == FoldBlocks(alg, alg.init, m[..|m| - num])
      modifies this`state, buf
      ensures Whole(|m| + alg.block - num, alg.block)
      ensures state == FoldBlocks(alg, alg.init, (m + data)[..|m| + alg.block - num])
    {
      hide Whole, FoldBlocks;
      ghost var all, kept := m + data, |m| - num;
      Append(num, data, alg.block - num, m);
      FoldOne(alg, alg.init, m[..kept], all[kept..kept + alg.block]);
      assert all[..kept + alg.block] == m[..kept] + all[kept..kept + alg.block];
      state := alg.f(state, buf[..alg.block]);
    }

    /** The whole blocks of the data from `at` on. */
    method WriteBlocks(data: seq<byte>, at: nat, accelerated: bool, ghost m: seq<byte>) returns (end: nat)
      requires Valid() && at <= |data| && Whole(|m| + at, alg.block)
      requires state == FoldBlocks(alg, alg.init, (m + data)[..|m| + at])
      modifies this`state
      ensures at <= end <= |data| < end + alg.block && Whole(|m| + end, alg.block)
      ensures state == FoldBlocks(alg, alg.init, (m + data)[..|m| + end])
    {
      hide Whole, FoldBlocks;
      ghost var all := m + data;
      end := at;
      if accelerated {
        end := WriteBulk(data, at, m);
      } else {
        while |data| - end >= alg.block
          invariant at <= end <= |data| && Whole(|m| + end, alg.block)
          invariant state == FoldBlocks(alg, alg.init, all[..|m| + end])
          decreases |data| - end
        {
          var block := data[end..end + alg.block];
          FoldOne(alg, alg.init, all[..|m| + end], block);
          assert all[..|m| + end + alg.block] == all[..|m| + end] + block;
          state := alg.f(state, block);
          end := end + alg.block;
        }
      }
    }

    /** All whole blocks at once. */
    method WriteBulk(data: seq<byte>, at: nat, ghost m: seq<byte>) returns (end: nat)
      requires Valid() && at <= |data| && Whole(|m| + at, alg.block)
      requires state == FoldBlocks(alg, alg.init, (m + data)[..|m| + at])
      modifies this`state
      ensures at <= end <= |data| < end + alg.block && Whole(|m| + end, alg.block)
      ensures state == FoldBlocks(alg, alg.init, (m + data)[..|m| + end])
    {
      hide Whole, FoldBlocks;
      ghost var all := m + data;
      var num := (|data| - at) / alg.block * alg.block;
      WholeSize(|data| - at, alg.block);
      WholeSum(|m| + at, num, alg.block);
      FoldAppend(alg, alg.init, all[..|m| + at], data[at..at + num]);
      assert all[..|m| + at + num] == all[..|m| + at] + data[at..at + num];
      state := FoldBlocks(alg, state, data[at..at + num]);
      end := at + num;
    }

    /** What remains to be filled with zeros when `pos` bytes of a block are. */
    ghost function Remaining(pos: nat): int
    {
      if pos <= alg.block - alg.lenSize then alg.block - alg.lenSize - pos else 2 * alg.block - alg.lenSize - pos
    }

    /** The buffer holds the last `pos` bytes of the message, and the blocks before them are folded. */
    ghost predicate Filled(q: seq<byte>, pos: nat)
      requires Valid()
      reads this, buf
    {
      && pos <= |q| && pos <= alg.block && Whole(|q| - pos, alg.block)
      && state == FoldBlocks(alg, alg.init, q[..|q| - pos]) && buf[..pos] == q[|q| - pos..]
    }

    method FullBlock(ghost q: seq<byte>)
      requires Valid() && Filled(q, alg.block)
      modifies this`state
      ensures Filled(q, 0)
    {
      hide Whole, FoldBlocks;
      FoldOne(alg, alg.init, q[..|q| - alg.block], q[|q| - alg.block..]);
      assert q == q[..|q| - alg.block] + q[|q| - alg.block..];
      assert q[..|q|] == q;
      state := alg.f(state, buf[..alg.block]);
    }

    method PutZero(pos: nat, ghost q: seq<byte>)
      requires Valid() && pos < alg.block && Filled(q, pos)
      modifies buf
      ensures Filled(q + [0], pos + 1)
    {
      hide Whole, FoldBlocks;
      assert (q + [0])[..|q| - pos] == q[..|q| - pos];
      assert (q + [0])[|q| - pos..] == q[|q| - pos..] + [0];
      buf[pos] := 0;
    }

    /** The loop of the final functions that fills the buffer with zeros up to the length field, going
        through one more block when the field does not fit. */
    method PadZeros(start: nat, ghost p: seq<byte>)
      requires Valid() && 1 <= start && Filled(p, start)
      modifies this`state, buf
      ensures Filled(p + Zeros(ZeroCount(alg, |p| - 1)), alg.block - alg.lenSize)
    {
      hide Whole, FoldBlocks, ZeroCount;
      var pos := start;
      ghost var z := 0;
      ghost var q := p;
      while pos != alg.block - alg.lenSize
        invariant 1 <= pos <= alg.block && z + Remaining(pos) == Remaining(start)
        invariant q == p + Zeros(z) && Filled(q, pos)
        decreases Remaining(pos)
      {
        if pos == alg.block {
          FullBlock(q);
          pos := 0;
        }
        PutZero(pos, q);
        pos := pos + 1;
        z := z + 1;
        q := q + [0];
      }
      ZeroCountIs(alg, |p| - 1, z, |q| - pos);
    }

    /** The bits of the message length, most significant byte first, at the end of the block. */
    method PutLength()
      requires Valid()
      modifies buf
      ensures buf[..alg.block] == old(buf[..alg.block - alg.lenSize]) + BigEndian(8 * bytecount, alg.lenSize)
    {
      hide BigEndian, LengthByte;
      ghost var field := BigEndian(8 * bytecount, alg.lenSize);
      for k := 0 to alg.lenSize
        invariant buf[..alg.block - alg.lenSize] == old(buf[..alg.block - alg.lenSize])
        invariant buf[alg.block - k..alg.block] == field[alg.lenSize - k..]
      {
        LengthByteIs(bytecount, alg.lenSize, k);
        buf[alg.block - 1 - k] := LengthByte(bytecount, k);
        assert field[alg.lenSize - 1 - k..] == [field[alg.lenSize - 1 - k]] + field[alg.lenSize - k..];
        assert buf[alg.block - 1 - k..alg.block] == [buf[alg.block - 1 - k]] + buf[alg.block - k..alg.block];
      }
    }

    /** The mark after the message. */
    method Mark(ghost m: seq<byte>) returns (pos: nat)
      requires Valid() && Holds(m) && |m| < TWO_64
      modifies buf
      ensures bytecount == |m|
      ensures 1 <= pos && Filled(m + [0x80], pos)
    {
      hide Whole, FoldBlocks;
      ghost var p := m + [0x80];
      pos := bytecount % alg.block;
      buf[pos] := 0x80;
      pos := pos + 1;
      assert p[|p| - pos..] == m[|m| - (pos - 1)..] + [0x80];
      assert p[..|p| - pos] == m[..|m| - (pos - 1)];
    }

    /** sha1_final, sha256_final, sha512_final, up to the digest words: the message is padded in the
        buffer and folded. */
    method Final(ghost m: seq<byte>)
      requires Valid() && Holds(m) && |m| < TWO_64
      modifies this, buf
      ensures state == Digest(alg, m)
    {
      hide Whole, FoldBlocks, BigEndian, Digest, Zeros, ZeroCount, Absorbs;
      var pos := Mark(m);
      PadZeros(pos, m + [0x80]);
      PutLength();
      LastBlock(alg, m, buf[..alg.block], state);
      state := alg.f(state, buf[..alg.block]);
    }
  }

  /** The last block of the padded message. */
  lemma LastBlock<S>(alg: Algorithm<S>, m: seq<byte>, block: seq<byte>, state: S)
    requires Standard(alg)
    requires
      var q := m + [0x80] + Zeros(ZeroCount(alg, |m|));
      var kept := |q| - (alg.block - alg.lenSize);
      && 0 <= kept && Whole(kept, alg.block) && state == FoldBlocks(alg, alg.init, q[..kept])
      && block == q[kept..] + BigEndian(8 * |m|, alg.lenSize)
    ensures alg.f(state, block) == Digest(alg, m)
  {
    hide Whole, FoldBlocks, BigEndian, Zeros, ZeroCount;
    var q := m + [0x80] + Zeros(ZeroCount(alg, |m|));
    var kept := |q| - (alg.block - alg.lenSize);
    var field := BigEndian(8 * |m|, alg.lenSize);
    FoldOne(alg, alg.init, q[..kept], block);
    assert q[..kept] + (q[kept..] + field) == q + field;
  }

  /** The byte of the bit count that is stored `k` places before the end of the block: the count is
      kept in two 64-bit words. */
  function LengthByte(bytecount: nat, k: nat): byte
  {
    PowSum(k, 0);
    PowSum(if k < 8 then 0 else k - 8, 0);
    if k < 8 then ((8 * bytecount) % TWO_64 / Pow256(k)) % 256
    else (bytecount / 0x2000_0000_0000_0000 / Pow256(k - 8)) % 256
  }

  lemma LengthByteIs(bytecount: nat, size: nat, k: nat)
    requires k < size
    ensures LengthByte(bytecount, k) == BigEndian(8 * bytecount, size)[size - 1 - k]
  {
    BigEndianAt(8 * bytecount, size, k);
    if k < 8 {
      LowBytes(8 * bytecount, k);
    } else {
      assert bytecount / 0x2000_0000_0000_0000 == (8 * bytecount) / TWO_64;
      HighBytes(8 * bytecount, k - 8);
    }
  }

  lemma ZeroCountIs<S>(alg: Algorithm<S>, n: nat, z: nat, kept: nat)
    requires Standard(alg) && z < alg.block
    requires n + 1 + z == kept + alg.block - alg.lenSize && Whole(kept, alg.block)
    ensures z == ZeroCount(alg, n)
  {
    ZeroCountLeast(alg, n, z);
  }

  // ----- Whole messages -----

  function Flatten(chunks: seq<seq<byte>>): seq<byte>
  {
    if chunks == [] then [] else Flatten(chunks[..|chunks| - 1]) + chunks[|chunks| - 1]
  }

  /** However a message is cut into writes, and whichever way whole blocks are handed over, the
      result is the digest of the message. */
  method HashChunks<S(!new)>(alg: Algorithm<S>, chunks: seq<seq<byte>>, accelerated: bool) returns (digest: S)
    requires Standard(alg) && |Flatten(chunks)| < TWO_64
    ensures digest == Digest(alg, Flatten(chunks))
  {
    hide Absorbs, Padded, FoldBlocks;
    var context := new Context(alg);
    for i := 0 to |chunks|
      invariant context.Valid() && context.alg == alg && fresh(context) && fresh(context.buf)
      invariant context.Holds(Flatten(chunks[..i]))
    {
      context.Write(chunks[i], accelerated, Flatten(chunks[..i]));
      assert chunks[..i + 1][..i] == chunks[..i];
    }
    assert chunks[..|chunks|] == chunks;
    context.Final(Flatten(chunks));
    digest := context.state;
  }
}
