/** The device under test, as the transfers of do_read and do_write see it (src/badblocks.c:363-405):
    each transfer of consecutive blocks succeeds for a first part of them. What the model leaves open
    about a device is chosen anew at every call. */
module BadBlocksDevice {
  import opened BadBlocksPattern

  /** The cell of block `b` on a device of `m` blocks. */
  function Cell(b: nat, m: nat): (r: nat)
    requires m > 0
    ensures r < m
  {
    b % m
  }

  /** The cells after writing `data` from block `first` on a device that keeps block b in cell b mod m. */
  function Kept(cells: seq<Block>, first: nat, data: seq<Block>): (r: seq<Block>)
    requires |cells| > 0
    ensures |r| == |cells|
  {
    if data == [] then cells
    else
      var n := |data| - 1;
      Kept(cells, first, data[..n])[Cell(first + n, |cells|) := data[n]]
  }

  lemma {:induction false} KeptAppend(cells: seq<Block>, first: nat, a: seq<Block>, b: seq<Block>)
    requires |cells| > 0
    ensures Kept(Kept(cells, first, a), first + |a|, b) == Kept(cells, first, a + b)
    decreases |b|
  {
    if b == [] {
      assert a + b == a;
    } else {
      var n := |b| - 1;
      assert (a + b)[..|a| + n] == a + b[..n];
      KeptAppend(cells, first, a, b[..n]);
    }
  }

  /** `data` noted under the addresses from `first` on. */
  function Noted(m: map<nat, Block>, first: nat, data: seq<Block>): (r: map<nat, Block>)
    ensures forall b :: b in r <==> b in m || first <= b < first + |data|
    ensures forall b :: first <= b < first + |data| ==> r[b] == data[b - first]
    ensures forall b :: b in m && !(first <= b < first + |data|) ==> r[b] == m[b]
  {
    if data == [] then m
    else
      var n := |data| - 1;
      Noted(m, first, data[..n])[first + n := data[n]]
  }

  /** A transfer of `n` blocks from `first` on, and the blocks that were transferred. */
  datatype Transfer = Transfer(first: nat, n: nat, data: seq<Block>)

  class Device {
    /** The number of blocks it really has. */
    const size: nat
    /** Every transfer succeeds, and block b is kept in cell b mod size. */
    const complete: bool
    /** A read gives all the blocks asked for, or none. */
    const whole: bool
    /** A block that is read is as it was last written. */
    const faithful: bool

    var cells: seq<Block>
    /** The last block successfully written, and read, at each address. */
    var written: map<nat, Block>
    var seen: map<nat, Block>
    /** The blocks that could not be transferred on their own. */
    var dead: set<nat>
    /** The transfers so far. */
    ghost var writeLog: seq<Transfer>
    ghost var readLog: seq<Transfer>

    ghost predicate Valid()
      reads this
    {
      size > 0 && |cells| == size
    }

    constructor (size: nat, complete: bool, whole: bool, faithful: bool)
      requires size > 0
      ensures Valid() && this.size == size && this.complete == complete
      ensures this.whole == whole && this.faithful == faithful
      ensures dead == {} && written == map[] && seen == map[] && writeLog == [] && readLog == []
    {
      this.size, this.complete, this.whole, this.faithful := size, complete, whole, faithful;
      cells, written, seen, dead, writeLog, readLog := seq(size, _ => []), map[], map[], {}, [], [];
    }

    /** do_write */
    method Write(first: nat, data: seq<Block>) returns (got: nat)
      requires Valid()
      modifies this
      ensures Valid() && got <= |data| && seen == old(seen) && readLog == old(readLog)
      ensures writeLog == old(writeLog) + [Transfer(first, |data|, data[..got])]
      ensures written == Noted(old(written), first, data[..got])
      ensures dead == old(dead) + if |data| == 1 && got == 0 then {first} else {}
      ensures complete ==> got == |data| && cells == Kept(old(cells), first, data)
    {
      if complete {
        got := |data|;
        cells := Kept(cells, first, data);
        assert data[..got] == data;
      } else {
        got :| got <= |data|;
        var changed: seq<Block> := *;
        if |changed| == size { cells := changed; }
      }
      written := Noted(written, first, data[..got]);
      writeLog := writeLog + [Transfer(first, |data|, data[..got])];
      if |data| == 1 && got == 0 { dead := dead + {first}; }
    }

    /** do_read */
    method Read(first: nat, n: nat) returns (data: seq<Block>)
      requires Valid()
      modifies this
      ensures Valid() && |data| <= n && cells == old(cells) && written == old(written) && writeLog == old(writeLog)
      ensures readLog == old(readLog) + [Transfer(first, n, data)]
      ensures seen == Noted(old(seen), first, data)
      ensures dead == old(dead) + if n == 1 && data == [] then {first} else {}
      ensures complete ==> |data| == n && forall i :: 0 <= i < n ==> data[i] == cells[Cell(first + i, size)]
      ensures whole ==> data == [] || |data| == n
      ensures faithful && !complete ==> forall i :: 0 <= i < |data| && first + i in written ==>
        data[i] == written[first + i]
    {
      hide Noted;
      if complete {
        var held := cells;
        data := seq(n, i requires 0 <= i < n && |held| > 0 => held[Cell(first + i, |held|)]);
      } else {
        var got: nat :| got <= n && (whole ==> got == 0 || got == n);
        var other: nat -> Block := *;
        var last := written;
        data := seq(got, i requires 0 <= i < got =>
          if faithful && first + i in last then last[first + i] else other(i));
      }
      seen := Noted(seen, first, data);
      readLog := readLog + [Transfer(first, n, data)];
      if n == 1 && data == [] { dead := dead + {first}; }
    }
  }
}
