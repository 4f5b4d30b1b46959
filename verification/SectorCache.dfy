/** iso9660_readfat (src/iso.c:1764-1801): sectors of a FAT image inside an ISO, read through a buffer
    of several ISO blocks. */
module SectorCache {
  import opened Arithmetic
  import opened HashStream

  const BLOCK: nat := 2048
  const BUFFER: nat := 32768

  /** A sector size that divides the buffer divides a block, or is a multiple of it. */
  lemma SectorFits(sec: nat)
    requires sec > 0 && Whole(BUFFER, sec)
    ensures sec <= BUFFER && (Whole(BLOCK, sec) || Whole(sec, BLOCK))
  {
    hide Whole, Pow2;
    PowersHere();
    var j := DivisorOfPow2(sec, 15);
    if j <= 11 { Pow2Divides(j, 11); } else { Pow2Divides(11, j); }
    WholeFirst(BUFFER, sec);
  }

  /** The first sector of the buffer, after a refill for sector `n`. */
  function StartFor(n: nat, sec: nat): nat
    requires sec > 0
  {
    n * sec / BLOCK * BLOCK / sec
  }

  /** A refill starts on the block that the sector asked for begins in, and the sector fits in the buffer. */
  lemma StartIs(n: nat, sec: nat)
    requires sec > 0 && Whole(BUFFER, sec)
    ensures
      var at := StartFor(n, sec);
      && Whole(at * sec, BLOCK) && at * sec <= n * sec < at * sec + BLOCK && at <= n
      && (n - at) * sec + sec <= BUFFER
  {
    hide Whole, StartFor;
    SectorFits(sec);
    var byteAt, floor := n * sec, n * sec / BLOCK * BLOCK;
    WholeSize(byteAt, BLOCK);
    assert Whole(floor, sec) by {
      if Whole(BLOCK, sec) {
        WholeTimes(BLOCK, n * sec / BLOCK, sec);
        assert BLOCK * (n * sec / BLOCK) == floor;
      } else {
        WholeTimes(sec, n, BLOCK);
        assert sec * n == byteAt;
        FloorWhole(byteAt);
        SelfTimes(sec, n);
      }
    }
    StartExact(n, sec, floor);
    var at := StartFor(n, sec);
    if Whole(BLOCK, sec) {
      GapFits(n, at, sec);
    } else {
      WholeTimes(sec, n, BLOCK);
      assert sec * n == byteAt;
      FloorWhole(byteAt);
      SameProduct(n, at, sec);
    }
    OrderedProduct(at, n, sec);
  }

  lemma SelfTimes(sec: nat, n: nat)
    requires sec > 0
    ensures Whole(n * sec, sec)
  {
    ModUnique(n * sec, sec, n, 0);
  }

  lemma FloorWhole(b: nat)
    requires Whole(b, BLOCK)
    ensures b / BLOCK * BLOCK == b
  {
  }

  lemma StartExact(n: nat, sec: nat, floor: nat)
    requires sec > 0 && floor == n * sec / BLOCK * BLOCK && Whole(floor, sec)
    ensures StartFor(n, sec) * sec == floor
  {
    assert floor == sec * (floor / sec);
  }

  /** A sector less than a block after the start of a block ends within it. */
  lemma GapFits(n: nat, at: nat, sec: nat)
    requires sec > 0 && Whole(BLOCK, sec) && at * sec <= n * sec < at * sec + BLOCK
    ensures at <= n && (n - at) * sec + sec <= BLOCK
  {
    OrderedProduct(at, n, sec);
    var k := BLOCK / sec;
    assert BLOCK == sec * k;
    assert (n - at) * sec == n * sec - at * sec;
    if n - at >= k { OrderedTimes(k, n - at, sec); }
    OrderedTimes(n - at + 1, k, sec);
    assert (n - at + 1) * sec == (n - at) * sec + sec;
  }

  /** The image holds `data` at sector `n`. */
  predicate Holds(image: seq<byte>, sec: nat, n: nat, data: seq<byte>)
  {
    n * sec + sec <= |image| && data == image[n * sec..n * sec + sec]
  }

  // ----- Requests, as steps -----

  /** The first sector of the buffer, and the buffer. */
  datatype Contents = Contents(start: nat, buf: seq<byte>)

  /** What a read of the ISO does: it fills the buffer, or fails and leaves it in some state. */
  datatype Reply = Filled | Refused(left: seq<byte>)

  predicate ValidReply(image: seq<byte>, start: nat, sec: nat, r: Reply)
  {
    match r
    case Filled => start * sec + BUFFER <= |image|
    case Refused(left) => |left| == BUFFER
  }

  /** The sector is taken to be in the buffer. */
  predicate InWindow(start: nat, n: nat, sec: nat)
    requires sec > 0
  {
    start <= n < start + BUFFER / sec
  }

  /** The bytes of the buffer taken for sector `n`. */
  function Answer(c: Contents, n: nat, sec: nat): seq<byte>
  {
    if c.start <= n && 0 <= (n - c.start) * sec && (n - c.start) * sec + sec <= |c.buf|
    then c.buf[(n - c.start) * sec..(n - c.start) * sec + sec] else []
  }

  /** What is read into the buffer when it is filled for start sector `start`. */
  function Fill(image: seq<byte>, start: nat, sec: nat): seq<byte>
  {
    if start * sec + BUFFER <= |image| then image[start * sec..start * sec + BUFFER] else []
  }

  /** A request: from the buffer if the sector is taken to be there; otherwise the start is moved, the
      buffer filled, and an error returned if that fails. */
  function Serve(image: seq<byte>, sec: nat, c: Contents, n: nat, r: Reply): (Contents, seq<byte>)
    requires sec > 0
  {
    if InWindow(c.start, n, sec) then (c, Answer(c, n, sec))
    else
      var start := StartFor(n, sec);
      match r
      case Filled => var next := Contents(start, Fill(image, start, sec)); (next, Answer(next, n, sec))
      case Refused(left) => (Contents(start, left), [])
  }

  /** The buffer holds the image from sector `start` on. */
  predicate Coherent(image: seq<byte>, sec: nat, c: Contents)
  {
    c.start * sec + BUFFER <= |image| && c.buf == Fill(image, c.start, sec)
  }

  lemma CoherentAnswer(image: seq<byte>, sec: nat, c: Contents, n: nat)
    requires sec > 0 && Coherent(image, sec, c) && c.start <= n && (n - c.start) * sec + sec <= BUFFER
    ensures Holds(image, sec, n, Answer(c, n, sec))
  {
    SplitProduct(n, c.start, sec);
    SliceOfSlice(image, c.start * sec, BUFFER, (n - c.start) * sec, sec);
  }

  /** A request is answered rightly from a coherent buffer, and whenever it fills the buffer first,
      whatever happened before; either way the buffer is coherent then. */
  lemma ServeRight(image: seq<byte>, sec: nat, c: Contents, n: nat, r: Reply)
    requires sec > 0 && Whole(BUFFER, sec) && ValidReply(image, StartFor(n, sec), sec, r)
    requires if InWindow(c.start, n, sec) then Coherent(image, sec, c) else r == Filled
    ensures
      var s := Serve(image, sec, c, n, r);
      Coherent(image, sec, s.0) && Holds(image, sec, n, s.1)
  {
    hide Whole, StartFor;
    if InWindow(c.start, n, sec) {
      InBuffer(n, c.start, sec);
      CoherentAnswer(image, sec, c, n);
    } else {
      StartIs(n, sec);
      CoherentAnswer(image, sec, Contents(StartFor(n, sec), Fill(image, StartFor(n, sec), sec)), n);
    }
  }

  /** After a failed fill, the same request is answered from what was left in the buffer, without another
      attempt; so it is right exactly when that happens to be what the image holds. */
  lemma StaleAfterFailure(image: seq<byte>, sec: nat, c: Contents, n: nat, left: seq<byte>, r: Reply)
    requires sec > 0 && Whole(BUFFER, sec) && |left| == BUFFER && !InWindow(c.start, n, sec)
    ensures
      var s := Serve(image, sec, c, n, Refused(left));
      var at := (n - s.0.start) * sec;
      && s.1 == [] && s.0 == Contents(StartFor(n, sec), left) && InWindow(s.0.start, n, sec)
      && 0 <= at && at + sec <= BUFFER && Serve(image, sec, s.0, n, r) == (s.0, left[at..at + sec])
  {
    hide Whole, StartFor;
    StartIs(n, sec);
    WindowHolds(sec, n);
    SplitProduct(n, StartFor(n, sec), sec);
  }

  /** Two requests for sector 64 of an image of 32 KB of zeros and 32 KB of ones, the first of which fails
      and leaves the buffer as it was: the second is answered with zeros. */
  lemma StaleAnswer(image: seq<byte>, c: Contents)
    requires image == Zeros(BUFFER) + seq(BUFFER, _ => 1) && c == Contents(0, Fill(image, 0, 512))
    ensures Coherent(image, 512, c)
    ensures
      var first := Serve(image, 512, c, 64, Refused(c.buf));
      var second := Serve(image, 512, first.0, 64, Filled);
      first.1 == [] && second.1 == Zeros(512) && !Holds(image, 512, 64, second.1)
  {
    assert Whole(BUFFER, 512) && StartFor(64, 512) == 64;
    assert c.buf == Zeros(BUFFER);
    StaleAfterFailure(image, 512, c, 64, c.buf, Filled);
    var data := c.buf[0..512];
    assert data == Zeros(512);
    assert image[64 * 512] == 1 && data[0] == 0;
    assert image[64 * 512..64 * 512 + 512][0] == 1;
  }

  lemma WindowHolds(sec: nat, n: nat)
    requires sec > 0 && Whole(BUFFER, sec)
    ensures InWindow(StartFor(n, sec), n, sec)
  {
    hide Whole, StartFor;
    StartIs(n, sec);
    var start := StartFor(n, sec);
    assert BUFFER == sec * (BUFFER / sec) by { WholeQuotient(sec); }
    OrderedProduct(n - start + 1, BUFFER / sec, sec);
  }

  lemma WholeQuotient(sec: nat)
    requires sec > 0 && Whole(BUFFER, sec)
    ensures BUFFER == sec * (BUFFER / sec)
  {
  }

  // ----- The cache -----

  class Cache {
    /** The bytes of the ISO from the start of the FAT image on. */
    const image: seq<byte>
    var start: nat
    var buf: seq<byte>
    /** Whether the last read of the ISO failed. */
    var failed: bool

    ghost predicate Valid()
      reads this
    {
      |buf| == BUFFER
    }

    ghost function Now(): Contents
      reads this
    {
      Contents(start, buf)
    }

    /** iso9660_iso_seek_read of 16 blocks. */
    method Refill(block: nat) returns (ok: bool)
      requires Valid()
      modifies this`buf, this`failed
      ensures Valid() && failed == !ok
      ensures ok ==> block * BLOCK + BUFFER <= |image| && buf == image[block * BLOCK..block * BLOCK + BUFFER]
    {
      ok := *;
      ok := ok && block * BLOCK + BUFFER <= |image|;
      failed := !ok;
      if ok {
        buf := image[block * BLOCK..block * BLOCK + BUFFER];
      } else {
        var junk: seq<byte> := *;
        if |junk| == BUFFER { buf := junk; }
      }
    }

    /** The initial buffer. */
    constructor (image: seq<byte>)
      ensures this.image == image && Valid() && (!failed ==> forall sec :: sec > 0 ==> Coherent(image, sec, Now()))
    {
      this.image := image;
      start, buf, failed := 0, Zeros(BUFFER), false;
      new;
      var ok := Refill(0);
    }

    /** iso9660_readfat: the request of the model, with the reply the ISO gave if it was asked. Unless the
        last read of the ISO failed, the sector is given as the image holds it. */
    method ReadSector(sec: nat, n: nat) returns (data: seq<byte>, ghost r: Reply)
      requires Valid() && sec > 0 && (!failed ==> Coherent(image, sec, Now()))
      modifies this
      ensures Valid() && (!Whole(BUFFER, sec) ==> data == [] && Now() == old(Now()) && failed == old(failed))
      ensures Whole(BUFFER, sec) ==>
                && ValidReply(image, StartFor(n, sec), sec, r) && (Now(), data) == Serve(image, sec, old(Now()), n, r)
                && failed == (if InWindow(old(start), n, sec) then old(failed) else r != Filled)
      ensures !failed ==> Coherent(image, sec, Now()) && (Whole(BUFFER, sec) ==> Holds(image, sec, n, data))
    {
      hide Whole, StartFor, Fill;
      r := Refused(buf);
      if !Whole(BUFFER, sec) { return [], r; }
      ghost var was := Now();
      if n < start || n >= start + BUFFER / sec {
        StartIs(n, sec);
        start := StartFor(n, sec);
        var at := start * sec;
        FloorWhole(at);
        var ok := Refill(at / BLOCK);
        r := if ok then Filled else Refused(buf);
        if ok { FillIs(image, start, sec); }
        if !ok { return [], r; }
      } else {
        InBuffer(n, start, sec);
      }
      SplitProduct(n, start, sec);
      data := buf[(n - start) * sec..(n - start) * sec + sec];
      if !failed { ServeRight(image, sec, was, n, r); }
    }
  }

  lemma FillIs(image: seq<byte>, start: nat, sec: nat)
    requires start * sec + BUFFER <= |image|
    ensures Fill(image, start, sec) == image[start * sec..start * sec + BUFFER]
  {
  }

  lemma SliceOfSlice(s: seq<byte>, a: nat, n: nat, at: nat, k: nat)
    requires a + n <= |s| && at + k <= n
    ensures s[a..a + n][at..at + k] == s[a + at..a + at + k]
  {
    var x, y := s[a..a + n][at..at + k], s[a + at..a + at + k];
    forall i | 0 <= i < k ensures x[i] == y[i] { assert x[i] == s[a..a + n][at + i] == s[a + at + i]; }
  }

  lemma InBuffer(n: nat, start: nat, sec: nat)
    requires sec > 0 && Whole(BUFFER, sec) && start <= n < start + BUFFER / sec
    ensures (n - start) * sec + sec <= BUFFER
  {
    assert BUFFER == sec * (BUFFER / sec);
    OrderedTimes(n - start + 1, BUFFER / sec, sec);
    assert (n - start + 1) * sec == (n - start) * sec + sec;
  }

  lemma SplitProduct(n: nat, start: nat, sec: nat)
    requires start <= n
    ensures n * sec == start * sec + (n - start) * sec && (n - start) * sec >= 0
  {
    var d := n - start;
    assert n == start + d;
    assert d * sec >= 0;
  }

  /** Any sequence of requests of one sector size. A request is answered as the image holds it, unless the
      last read of the ISO made for it or before it failed. */
  method ReadAll(image: seq<byte>, sec: nat, requests: seq<nat>) returns (answers: seq<seq<byte>>, failed: seq<bool>)
    requires sec > 0 && Whole(BUFFER, sec)
    ensures |answers| == |failed| == |requests|
    ensures forall i :: 0 <= i < |requests| && !failed[i] ==> Holds(image, sec, requests[i], answers[i])
  {
    hide Whole, StartFor, Serve, Fill;
    var cache := new Cache(image);
    answers, failed := [], [];
    for k := 0 to |requests|
      invariant cache.Valid() && (!cache.failed ==> Coherent(image, sec, cache.Now())) && cache.image == image
      invariant |answers| == |failed| == k
      invariant forall i :: 0 <= i < k && !failed[i] ==> Holds(image, sec, requests[i], answers[i])
    {
      ghost var r;
      var data;
      data, r := cache.ReadSector(sec, requests[k]);
      answers, failed := answers + [data], failed + [cache.failed];
    }
  }
}
