/** The contents of blocks in the bad-block test: what the buffer gives for a block, what a complete
    device gives back, and where the two differ (src/badblocks.c:449-560). */
module BadBlocksContents {
  import opened Arithmetic
  import opened HashStream
  import opened BadBlocksPattern
  import opened BadBlocksDevice

  /** Whether block numbers are stamped into the blocks, and where. */
  datatype Stamping = Plain | At(offset: nat)

  /** The blocks of the buffer before stamping. */
  ghost predicate Slotted(base: seq<Block>, st: Stamping)
  {
    |base| > 0 && forall i :: 0 <= i < |base| ==> Fits(base[i], st)
  }

  predicate Fits(p: Block, st: Stamping)
  {
    st.At? ==> st.offset + ID_SIZE <= |p|
  }

  function Content(p: Block, st: Stamping, b: nat): (r: Block)
    requires Fits(p, st)
  {
    if st.At? then Stamp(p, st.offset, b) else p
  }

  /** What the buffer holds for `n` blocks from `cur` on. */
  ghost function Chunk(base: seq<Block>, st: Stamping, cur: nat, n: nat): (r: seq<Block>)
    requires Slotted(base, st) && n <= |base|
    ensures |r| == n && forall i :: 0 <= i < n ==> r[i] == Content(base[i], st, cur + i)
  {
    if n == 0 then [] else Chunk(base, st, cur, n - 1) + [Content(base[n - 1], st, cur + n - 1)]
  }

  lemma ChunkSize(base: seq<Block>, st: Stamping, cur: nat, n: nat)
    requires Slotted(base, st) && n <= |base|
    ensures |Chunk(base, st, cur, n)| == n
  {
  }

  lemma ChunkPrefix(base: seq<Block>, st: Stamping, cur: nat, n: nat, k: nat)
    requires Slotted(base, st) && k <= n <= |base|
    ensures Chunk(base, st, cur, n)[..k] == Chunk(base, st, cur, k)
  {
    hide Content;
  }

  /** Block contents that some place of the buffer would give block `b`. */
  ghost predicate FromBuffer(base: seq<Block>, st: Stamping, b: nat, data: Block)
    requires Slotted(base, st)
  {
    exists i :: 0 <= i < |base| && data == Content(base[i], st, b)
  }

  /** A buffer that stamping turns into the contents for any block. */
  ghost predicate Loaded(buffer: seq<Block>, base: seq<Block>, st: Stamping)
    requires Slotted(base, st)
  {
    |buffer| == |base| && forall i :: 0 <= i < |base| ==> Like(buffer[i], base[i], st)
  }

  predicate Like(x: Block, p: Block, st: Stamping)
    requires Fits(p, st)
  {
    if st.At? then
      |x| == |p| && x[..st.offset] == p[..st.offset] && x[st.offset + ID_SIZE..] == p[st.offset + ID_SIZE..]
    else x == p
  }

  lemma LikeStamped(x: Block, p: Block, st: Stamping, b: nat)
    requires Fits(p, st) && Like(x, p, st)
    ensures Fits(x, st) && Content(x, st, b) == Content(p, st, b) && Like(Content(p, st, b), p, st)
  {
    hide LittleEndian;
  }

  /** The loop that stamps the block numbers. */
  method StampNumbers(buffer: array<Block>, ghost base: seq<Block>, st: Stamping, cur: nat)
    requires Slotted(base, st) && Loaded(buffer[..], base, st)
    modifies buffer
    ensures Loaded(buffer[..], base, st) && forall i :: 0 <= i < |base| ==> buffer[i] == Content(base[i], st, cur + i)
  {
    hide Content, Like;
    ghost var was := buffer[..];
    forall i | 0 <= i < |base| ensures Fits(was[i], st) { LikeStamped(was[i], base[i], st, 0); }
    forall i, b: nat | 0 <= i < |base|
      ensures Content(was[i], st, b) == Content(base[i], st, b) && Like(Content(base[i], st, b), base[i], st)
    { LikeStamped(was[i], base[i], st, b); }
    if st.At? {
      for i := 0 to buffer.Length
        invariant buffer.Length == |base|
        invariant forall k :: 0 <= k < |base| ==> buffer[k] == if k < i then Content(base[k], st, cur + k) else was[k]
      {
        assert Content(was[i], st, cur + i) == Content(base[i], st, cur + i);
        buffer[i] := Content(buffer[i], st, cur + i);
      }
    } else {
      forall i | 0 <= i < |base|
        ensures buffer[i] == Content(base[i], st, cur + i)
      {
        PlainContent(buffer[i], base[i], st, cur + i);
      }
    }
  }

  lemma LoadedSize(buffer: seq<Block>, base: seq<Block>, st: Stamping)
    requires Slotted(base, st) && Loaded(buffer, base, st)
    ensures |buffer| == |base|
  {
  }

  function Min(a: nat, b: nat): nat
  {
    if a < b then a else b
  }

  lemma PlainContent(x: Block, p: Block, st: Stamping, b: nat)
    requires st.Plain? && Fits(p, st) && Like(x, p, st)
    ensures x == Content(p, st, b)
  {
  }

  // ----- What the scans should see -----

  /** The contents of block `b` when the buffer has been used from its start all along. */
  ghost function Expect(base: seq<Block>, st: Stamping, first: nat, b: nat): Block
    requires Slotted(base, st) && first <= b
  {
    Content(base[Cell(b - first, |base|)], st, b)
  }

  ghost function Region(base: seq<Block>, st: Stamping, first: nat, n: nat): (r: seq<Block>)
    requires Slotted(base, st)
    ensures |r| == n && forall i :: 0 <= i < n ==> r[i] == Expect(base, st, first, first + i)
  {
    if n == 0 then [] else Region(base, st, first, n - 1) + [Expect(base, st, first, first + n - 1)]
  }

  lemma CellInChunk(n: nat, i: nat, size: nat)
    requires size > 0 && Whole(n, size) && i < size
    ensures Cell(n + i, size) == i
  {
    ModUnique(n + i, size, n / size, i);
  }

  lemma RegionExtends(base: seq<Block>, st: Stamping, first: nat, n: nat, k: nat)
    requires Slotted(base, st) && Whole(n, |base|) && k <= |base|
    ensures Region(base, st, first, n) + Chunk(base, st, first + n, k) == Region(base, st, first, n + k)
  {
    hide Content, Cell;
    var r := Region(base, st, first, n + k);
    forall i | 0 <= i < k ensures r[n + i] == Content(base[i], st, first + n + i) {
      CellInChunk(n, i, |base|);
      assert r[n + i] == Expect(base, st, first, first + (n + i));
    }
    forall i | 0 <= i < n ensures r[i] == Region(base, st, first, n)[i] {
      assert r[i] == Expect(base, st, first, first + i);
    }
  }

  /** What a complete device gives for `n` blocks from `cur` on. */
  ghost function Held(cells: seq<Block>, cur: nat, n: nat): (r: seq<Block>)
    requires |cells| > 0
    ensures |r| == n
  {
    if n == 0 then [] else Held(cells, cur, n - 1) + [cells[Cell(cur + n - 1, |cells|)]]
  }

  lemma {:induction false} HeldAt(cells: seq<Block>, cur: nat, n: nat, i: nat)
    requires |cells| > 0 && i < n
    ensures Held(cells, cur, n)[i] == cells[Cell(cur + i, |cells|)]
    decreases n
  {
    hide Cell;
    if i < n - 1 { HeldAt(cells, cur, n - 1, i); }
  }

  lemma HeldExtends(cells: seq<Block>, first: nat, n: nat, k: nat)
    requires |cells| > 0
    ensures Held(cells, first, n) + Held(cells, first + n, k) == Held(cells, first, n + k)
  {
    hide Cell;
    var r, a, b := Held(cells, first, n + k), Held(cells, first, n), Held(cells, first + n, k);
    forall i | 0 <= i < n + k ensures r[i] == (a + b)[i] {
      HeldAt(cells, first, n + k, i);
      if i < n { HeldAt(cells, first, n, i); } else { HeldAt(cells, first + n, k, i - n); }
    }
  }

  /** The addresses, from `at` on, where two runs of blocks differ. */
  ghost function Differing(data: seq<Block>, want: seq<Block>, at: nat): (r: set<nat>)
    requires |data| <= |want|
    ensures forall b :: b in r <==> at <= b < at + |data| && data[b - at] != want[b - at]
  {
    if data == [] then {}
    else
      var n := |data| - 1;
      Differing(data[..n], want, at) + if data[n] != want[n] then {at + n} else {}
  }

  lemma DifferingAppend(a: seq<Block>, b: seq<Block>, c: seq<Block>, d: seq<Block>, at: nat)
    requires |a| == |b| && |c| == |d|
    ensures Differing(a + c, b + d, at) == Differing(a, b, at) + Differing(c, d, at + |a|)
  {
    var all, some := Differing(a + c, b + d, at), Differing(a, b, at) + Differing(c, d, at + |a|);
    forall x | x in all ensures x in some {
      assert (a + c)[x - at] == (if x < at + |a| then a[x - at] else c[x - at - |a|]);
      assert (b + d)[x - at] == (if x < at + |a| then b[x - at] else d[x - at - |a|]);
    }
    forall x | x in some ensures x in all {
      assert (a + c)[x - at] == (if x < at + |a| then a[x - at] else c[x - at - |a|]);
      assert (b + d)[x - at] == (if x < at + |a| then b[x - at] else d[x - at - |a|]);
    }
  }

  /** The blocks, among the first `n`, that a complete device gives back wrong. */
  ghost function Wrong(cells: seq<Block>, base: seq<Block>, st: Stamping, first: nat, n: nat): set<nat>
    requires |cells| > 0 && Slotted(base, st)
  {
    Differing(Held(cells, first, n), Region(base, st, first, n), first)
  }

  lemma WrongExtends(cells: seq<Block>, base: seq<Block>, st: Stamping, first: nat, n: nat, k: nat)
    requires |cells| > 0 && Slotted(base, st) && Whole(n, |base|) && k <= |base|
    ensures Wrong(cells, base, st, first, n + k) ==
      Wrong(cells, base, st, first, n) + Differing(Held(cells, first + n, k), Chunk(base, st, first + n, k), first + n)
  {
    hide Differing, Held, Region, Chunk;
    HeldExtends(cells, first, n, k);
    RegionExtends(base, st, first, n, k);
    Lengths(cells, base, st, first, n, k);
    DifferingAppend(Held(cells, first, n), Region(base, st, first, n),
                    Held(cells, first + n, k), Chunk(base, st, first + n, k), first);
  }

  lemma Lengths(cells: seq<Block>, base: seq<Block>, st: Stamping, first: nat, n: nat, k: nat)
    requires |cells| > 0 && Slotted(base, st) && k <= |base|
    ensures |Held(cells, first, n)| == |Region(base, st, first, n)| == n
    ensures |Held(cells, first + n, k)| == |Chunk(base, st, first + n, k)| == k
  {
  }

  /** Contents that some place of the buffer would not give block `b`. */
  ghost predicate Doubted(base: seq<Block>, st: Stamping, b: nat, data: Block)
    requires Slotted(base, st)
  {
    exists i :: 0 <= i < |base| && data != Content(base[i], st, b)
  }

  /** When the blocks of the buffer are alike, what comes from it is not doubted. */
  lemma AlikeSure(base: seq<Block>, st: Stamping, b: nat, data: Block)
    requires Slotted(base, st) && Alike(base) && FromBuffer(base, st, b, data)
    ensures !Doubted(base, st, b, data)
  {
  }

  ghost function Range(a: nat, b: nat): (r: set<nat>)
    ensures forall x :: x in r <==> a <= x < b
  {
    if a >= b then {} else Range(a, b - 1) + {b - 1}
  }

  lemma DifferingFirst(data: seq<Block>, want: seq<Block>, at: nat, i: nat)
    requires |data| <= |want| && i <= |data|
    ensures data[..0] == [] && Differing(data[..0], want, at) == {}
    ensures i < |data| ==>
      Differing(data[..i + 1], want, at) ==
        Differing(data[..i], want, at) + (if data[i] != want[i] then {at + i} else {})
  {
    if i < |data| {
      assert data[..i + 1][..i] == data[..i];
    }
  }

  lemma DifferingPrefix(data: seq<Block>, want: seq<Block>, at: nat, i: nat)
    requires |data| <= |want| && i <= |data|
    ensures Differing(data[..i], want, at) <= Differing(data, want, at)
  {
  }

  lemma WholeAfter(n: nat, k: nat, b: nat, total: nat)
    requires b > 0 && n <= total && Whole(n, b) && k == Min(b, total - n)
    ensures n + k < total ==> Whole(n + k, b)
  {
    hide Whole;
    WholeSum(n, k, b);
  }

  lemma KeptNone(cells: seq<Block>, base: seq<Block>, st: Stamping, first: nat)
    requires |cells| > 0 && Slotted(base, st)
    ensures Kept(cells, first, Region(base, st, first, 0)) == cells && Whole(0, |base|)
  {
  }

  lemma KeptExtends(cells: seq<Block>, before: seq<Block>, after: seq<Block>, base: seq<Block>, st: Stamping,
                    first: nat, n: nat, k: nat, total: nat)
    requires |cells| > 0 && |before| > 0 && Slotted(base, st) && Whole(n, |base|)
    requires n <= total && k == Min(|base|, total - n)
    requires before == Kept(cells, first, Region(base, st, first, n))
    requires after == Kept(before, first + n, Chunk(base, st, first + n, k))
    ensures after == Kept(cells, first, Region(base, st, first, n + k)) && (n + k < total ==> Whole(n + k, |base|))
  {
    hide Kept, Chunk, Region, Whole;
    Lengths(cells, base, st, first, n, k);
    RegionExtends(base, st, first, n, k);
    KeptAppend(cells, first, Region(base, st, first, n), Chunk(base, st, first + n, k));
    WholeSum(n, k, |base|);
  }
}
