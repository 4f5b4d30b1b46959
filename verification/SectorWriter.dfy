/** sector_write (src/format.c:1090-1149): a stream cut anywhere is written to a device in whole
    sectors, what is left over being kept in a buffer between calls. */
module SectorWriter {
  import opened Arithmetic
  import opened HashStream

  const MAX_SECTOR: nat := 0x1_0000
  const MAX_COUNT: nat := 0x4000_0000

  /** The whole part is the only multiple of the sector size less than a sector below. */
  lemma RoundDownOnly(n: nat, sector: nat, w: nat)
    requires sector > 0 && Whole(w, sector) && w <= n < w + sector
    ensures RoundDown(n, sector) == w
  {
    assert w == sector * (w / sector);
    ModUnique(n, sector, w / sector, n - w);
  }

  class Writer {
    /** The size of a sector of the drive, or 0 if unknown. */
    const sectorSize: nat
    const buf: array<byte>
    var pos: nat
    /** What the device has been given, and whether every write to it succeeded. */
    var device: seq<byte>
    var failed: bool

    constructor (sectorSize: nat)
      ensures this.sectorSize == sectorSize && fresh(buf) && Holds([]) && !failed && buf.Length == MAX_SECTOR
    {
      this.sectorSize := sectorSize;
      buf := new byte[MAX_SECTOR](_ => 0);
      pos, device, failed := 0, [], false;
      new;
      assert device + buf[..pos] == [];
    }

    function Sector(): (r: nat)
      ensures r > 0
    {
      if sectorSize == 0 then 512 else sectorSize
    }

    /** The device holds the longest whole-sector prefix of the input so far, the buffer the rest. */
    ghost predicate Holds(input: seq<byte>)
      reads this, buf
    {
      && buf.Length == MAX_SECTOR && (Sector() <= MAX_SECTOR ==> pos < Sector()) && pos <= |input| && pos <= buf.Length
      && Whole(|device|, Sector())
      && device + buf[..pos] == input
    }

    lemma HoldsPrefix(input: seq<byte>)
      requires Holds(input) && Sector() <= MAX_SECTOR
      ensures device == input[..RoundDown(|input|, Sector())] && buf[..pos] == input[RoundDown(|input|, Sector())..]
    {
      RoundDownOnly(|input|, Sector(), |device|);
    }

    /** _write, which is always given whole sectors. The result is the number of bytes written. */
    method Give(data: seq<byte>) returns (written: int)
      requires Whole(|data|, Sector())
      modifies this`device, this`failed
      ensures written == |data| && !failed ==> !old(failed) && device == old(device) + data
      ensures written != |data| ==> failed
      ensures old(failed) ==> failed
    {
      written := *;
      if written == |data| {
        device := device + data;
      } else {
        failed := true;
        if 0 <= written < |data| { device := device + data[..written]; }
      }
    }

    /** memcpy into the buffer. */
    method Copy(at: nat, data: seq<byte>)
      requires at + |data| <= buf.Length
      modifies buf
      ensures buf[..at + |data|] == old(buf[..at]) + data
    {
      for k := 0 to |data|
        invariant buf[..at] == old(buf[..at]) && forall j :: 0 <= j < k ==> buf[at + j] == data[j]
      {
        buf[at + k] := data[k];
      }
    }

    /** The partial sector kept from earlier calls is filled, and written when it is full. `full` tells
        whether there is more to do. */
    method FillSector(data: seq<byte>, ghost input: seq<byte>) returns (full: bool, fill: nat, result: int)
      requires Holds(input) && 0 < pos && Sector() <= MAX_SECTOR
      modifies this`pos, this`device, this`failed, buf
      ensures fill <= |data| && (old(failed) ==> failed) && pos <= buf.Length == MAX_SECTOR
      ensures full && !failed ==> pos == 0 && Holds(input + data[..fill]) && |input + data[..fill]| == |device|
      ensures !full && !failed ==> result == |data| && Holds(input + data)
      ensures !full && failed && !old(failed) ==> result != Sector()
    {
      hide Whole;
      fill := if Sector() - pos < |data| then Sector() - pos else |data|;
      ghost var kept := buf[..pos];
      Copy(pos, data[..fill]);
      pos := pos + fill;
      assert buf[..pos] == kept + data[..fill];
      assert device + buf[..pos] == input + data[..fill];
      if pos < Sector() {
        assert data[..fill] == data;
        return false, fill, |data|;
      }
      var sector := buf[..Sector()];
      assert sector == buf[..pos];
      pos := 0;
      WholeSum(0, 0, Sector());
      WholeSum(|device|, Sector(), Sector());
      var written := Give(sector);
      if written != Sector() { return false, fill, written; }
      full, result := true, written;
      assert !failed ==> device + buf[..0] == input + data[..fill];
    }

    /** sector_write: while every write succeeds, the call takes all its data. */
    method Write(data: seq<byte>, ghost input: seq<byte>) returns (result: int)
      requires Holds(input)
      modifies this`pos, this`device, this`failed, buf
      ensures (Sector() > MAX_SECTOR || |data| > MAX_COUNT) ==> result == -1 && Holds(input) && failed == old(failed)
      ensures Sector() <= MAX_SECTOR && |data| <= MAX_COUNT && !failed ==> result == |data| && Holds(input + data)
      ensures (old(failed) ==> failed) && pos <= buf.Length
    {
      hide Whole;
      if Sector() > MAX_SECTOR { return -1; }
      if |data| > MAX_COUNT { return -1; }
      if pos == 0 && Whole(|data|, Sector()) {
        assert device + buf[..0] == input;
        WholeSum(|device|, |data|, Sector());
        result := Give(data);
        assert !failed ==> device + buf[..0] == input + data;
        return;
      }
      var fill := 0;
      ghost var sofar := input;
      if pos > 0 {
        var full;
        full, fill, result := FillSector(data, input);
        if !full { return; }
        sofar := input + data[..fill];
      } else {
        assert data[..fill] == [] && input + [] == input;
      }
      if !failed { assert device + buf[..0] == sofar; }
      result := WriteRest(data, fill, sofar);
      if !failed { assert sofar + data[fill..] == input + data; }
    }

    /** As many whole sectors as there are, then the leftover into the buffer. */
    method WriteRest(data: seq<byte>, fill: nat, ghost sofar: seq<byte>) returns (result: int)
      requires fill <= |data| && 0 < Sector() <= MAX_SECTOR && buf.Length == MAX_SECTOR
      requires !failed ==> pos == 0 && Holds(sofar)
      modifies this`pos, this`device, this`failed, buf
      ensures !failed ==> result == |data| && Holds(sofar + data[fill..])
      ensures (old(failed) ==> failed) && (old(pos) <= buf.Length ==> pos <= buf.Length)
    {
      hide Whole, RoundDown;
      var size := RoundDown(|data| - fill, Sector());
      RoundDownIs(|data| - fill, Sector());
      ghost var had := device;
      if !failed { assert had + buf[..0] == had; }
      var written := Give(data[fill..fill + size]);
      if written < 0 { return written; }
      if written != size { return fill + written; }
      ghost var bytes := device;
      pos := |data| - fill - written;
      Copy(0, data[fill + size..]);
      assert buf[..pos] == data[fill + size..];
      result := |data|;
      if !failed {
        WholeSum(|had|, size, Sector());
        Joins(had, data, fill, size, bytes, buf[..pos]);
      }
    }
  }

  lemma Joins(had: seq<byte>, data: seq<byte>, fill: nat, size: nat, device: seq<byte>, tail: seq<byte>)
    requires fill + size <= |data| && device == had + data[fill..fill + size] && tail == data[fill + size..]
    ensures device + tail == had + data[fill..] && |device| == |had| + size
  {
    assert data[fill..] == data[fill..fill + size] + data[fill + size..];
  }

  /** Any sequence of calls whose underlying writes succeed: the device ends up with exactly the longest
      whole-sector prefix of the input, and the buffer with the rest. */
  method WriteAll(sectorSize: nat, chunks: seq<seq<byte>>) returns (w: Writer, ghost kept: seq<byte>)
    requires sectorSize <= MAX_SECTOR && forall i :: 0 <= i < |chunks| ==> |chunks[i]| <= MAX_COUNT
    ensures fresh(w) && w.sectorSize == sectorSize && w.pos <= w.buf.Length && kept == w.buf[..w.pos]
    ensures !w.failed ==>
              var input, whole := Flatten(chunks), RoundDown(|Flatten(chunks)|, w.Sector());
              whole <= |input| && w.device == input[..whole] && kept == input[whole..]
  {
    hide RoundDown, Whole;
    w := new Writer(sectorSize);
    var i := 0;
    while i < |chunks| && !w.failed
      invariant 0 <= i <= |chunks| && w.sectorSize == sectorSize && fresh(w)
      invariant fresh(w.buf) && w.buf.Length == MAX_SECTOR
      invariant w.pos <= w.buf.Length && (!w.failed ==> w.Holds(Flatten(chunks[..i])))
    {
      ghost var input := Flatten(chunks[..i]);
      assert chunks[..i + 1][..i] == chunks[..i];
      var r := w.Write(chunks[i], input);
      i := i + 1;
    }
    kept := w.buf[..w.pos];
    if !w.failed {
      assert chunks[..i] == chunks;
      RoundDownIs(|Flatten(chunks)|, w.Sector());
      w.HoldsPrefix(Flatten(chunks));
    }
  }
}
