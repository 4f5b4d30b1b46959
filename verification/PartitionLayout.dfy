/** The layout computed by CreatePartition (src/drive.c:2250-2398): partitions before the main one are
    placed upwards, those after it downwards from the end of the disk, and the main one in between. */
module PartitionLayout {
  import opened Arithmetic

  const MAX_PARTITIONS: nat := 16

  datatype Style = Mbr | Gpt | SuperFloppy

  /** A partition; a size of 0 is not set yet. */
  datatype Partition = Partition(offset: nat, size: nat) {
    function End(): nat { offset + size }
  }

  /** The drive and what is asked for. */
  datatype Request = Request(
    disk: nat, sector: nat, track: nat, cluster: nat, style: Style, oldBios: bool, espFirst: bool,
    esp: bool, msr: bool, persistence: bool, uefiNtfs: bool, compat: bool, persistenceSize: nat, uefiNtfsSize: nat)

  /** Rounding down does not pass a multiple. */
  lemma FloorAbove(x: nat, y: nat, w: nat)
    requires y > 0 && Whole(w, y) && w <= x
    ensures w <= RoundDown(x, y)
  {
    RoundDownIs(x, y);
    WholeGap(w, RoundDown(x, y), y);
  }

  /** The end of the area for partitions: a GPT has its backup in the last 33 sectors. The offset is a
      64-bit number and wraps around on a disk that is smaller than that. */
  function Limit(r: Request): nat
  {
    if r.style == Gpt then (r.disk - 33 * r.sector) % TWO_64 else r.disk
  }

  /** The limit is where the backup starts exactly when the disk has room for it; otherwise it is past the
      end of the disk. */
  lemma LimitExactly(r: Request)
    requires r.style == Gpt && r.disk < TWO_64 && 0 < 33 * r.sector < TWO_64
    ensures Limit(r) == r.disk - 33 * r.sector <==> 33 * r.sector <= r.disk
    ensures 33 * r.sector > r.disk ==> Limit(r) > r.disk
  {
  }

  /** `x` is the largest multiple of the unit up to `n`. */
  predicate Largest(x: nat, n: int, unit: nat)
    requires unit > 0
  {
    Whole(x, unit) && x <= n < x + unit
  }

  /** `x` is the smallest multiple of the unit from `n` on. */
  predicate Smallest(x: nat, n: nat, unit: nat)
    requires unit > 0
  {
    Whole(x, unit) && n <= x < n + unit
  }

  /** Where the partition after one that ends at `end` starts: on the next track, and then on a cluster when
      these are whole sectors. */
  ghost predicate NextStart(r: Request, end: nat, at: nat)
    requires r.track > 0 && r.cluster > 0 && r.sector > 0
  {
    exists up: nat :: Smallest(up, end, r.track) &&
      if Whole(r.cluster, r.sector) then Largest(at, up, r.cluster) else at == up
  }

  /** There is only one such number, and every other multiple up to `n` is smaller. */
  lemma LargestIs(x: nat, n: nat, unit: nat)
    requires unit > 0
    ensures Largest(x, n, unit) <==> Whole(x, unit) && x <= n && forall y: nat | Whole(y, unit) && y <= n :: y <= x
  {
    hide Whole;
    if Largest(x, n, unit) {
      forall y: nat | Whole(y, unit) && y <= n ensures y <= x { WholeGap(y, x, unit); }
    } else if Whole(x, unit) && x + unit <= n {
      WholeSum(x, unit, unit);
      assert Whole(x + unit, unit);
    }
  }

  /** The size of the main partition in a room: whole tracks, and then whole clusters when these are whole
      sectors; each as many as there can be. */
  ghost predicate MainSize(r: Request, room: nat, size: nat)
    requires r.track > 0 && r.cluster > 0 && r.sector > 0
  {
    exists tracks: nat :: Largest(tracks, room, r.track) &&
      if Whole(r.cluster, r.sector) then Largest(size, tracks, r.cluster) else size == tracks
  }

  /** The layout: in order and disjoint, within the limit; those up to the main one follow each other, those
      after it are on tracks as near to the end as can be, and the main one is as large as alignment allows. */
  ghost predicate Laid(r: Request, parts: seq<Partition>, main: nat)
    requires r.track > 0 && r.cluster > 0 && r.sector > 0
  {
    && main < |parts| && parts[main].size > 0
    && InOrder(parts, Limit(r)) && Upwards(r, parts, main) && Downwards(parts, main, Limit(r), r.track)
    && var next := Next(parts, main, Limit(r));
       parts[main].End() <= next && MainSize(r, next - parts[main].offset, parts[main].size)
  }

  ghost predicate InOrder(parts: seq<Partition>, limit: nat)
  {
    && (forall i, j :: 0 <= i < j < |parts| ==> parts[i].End() <= parts[j].offset)
    && (forall i :: 0 <= i < |parts| ==> parts[i].End() <= limit)
  }

  ghost predicate Upwards(r: Request, parts: seq<Partition>, main: nat)
    requires r.track > 0 && r.cluster > 0 && r.sector > 0 && main < |parts|
  {
    forall i :: 0 <= i < main ==> NextStart(r, parts[i].End(), parts[i + 1].offset)
  }

  ghost predicate Downwards(parts: seq<Partition>, main: nat, limit: nat, track: nat)
    requires track > 0
  {
    forall i :: main < i < |parts| ==> Largest(parts[i].offset, Next(parts, i, limit) - parts[i].size, track)
  }

  /** Where the partition after `i` starts, or the limit. */
  function Next(parts: seq<Partition>, i: nat, limit: nat): nat
  {
    if i + 1 < |parts| then parts[i + 1].offset else limit
  }

  /** The sizes of the partitions in front of the main one, and after it. */
  function Front(r: Request): seq<nat>
  {
    (if r.espFirst && r.esp then [260 * MB] else []) + if r.msr then [128 * MB] else []
  }

  function Back(r: Request): seq<nat>
    requires r.track > 0
  {
    (if r.persistence then [RoundUp(r.persistenceSize, r.track)] else [])
    + if r.esp && !r.espFirst then [RoundUp(260 * MB, r.track)]
      else if r.uefiNtfs then [RoundUp(r.uefiNtfsSize, r.track)]
      else if r.compat then [r.track] else []
  }

  function Sizes(p: seq<Partition>): (r: seq<nat>)
    ensures |r| == |p| && forall i :: 0 <= i < |p| ==> r[i] == p[i].size
  {
    seq(|p|, i requires 0 <= i < |p| => p[i].size)
  }

  /** The partitions are those asked for. */
  ghost predicate Asked(r: Request, parts: seq<Partition>, main: nat)
    requires r.track > 0 && r.cluster > 0
  {
    var front, back := Front(r), Back(r);
    && main == |front| && |parts| == |front| + 1 + |back| && parts[0].offset == FirstOffset(r)
    && Sizes(parts[..main]) == front && Sizes(parts[main + 1..]) == back
  }

  /** Room for partitions of these sizes and a track each. */
  function Total(sizes: seq<nat>, track: nat): nat
  {
    if sizes == [] then 0 else sizes[0] + track + Total(sizes[1..], track)
  }

  /** Enough room for everything. */
  function Needed(r: Request): nat
    requires r.track > 0 && r.cluster > 0
  {
    FirstOffset(r) + Total(Front(r), r.track) + Total(Back(r), r.track) + r.track + r.cluster
  }

  /** Where the partition after one that ends at `end` starts. */
  function NextOffset(r: Request, end: nat): nat
    requires r.track > 0 && r.cluster > 0 && r.sector > 0
  {
    var up := RoundUp(end, r.track);
    if Whole(r.cluster, r.sector) then RoundDown(up, r.cluster) else up
  }

  /** The next partition does not start before the end of the last, when that is a whole number of
      clusters; and then starts on a cluster itself. */
  lemma NextOffsetIs(r: Request, end: nat)
    requires r.track > 0 && r.cluster > 0 && r.sector > 0
    requires Whole(r.cluster, r.sector) ==> Whole(end, r.cluster)
    ensures end <= NextOffset(r, end) && (Whole(r.cluster, r.sector) ==> Whole(NextOffset(r, end), r.cluster))
  {
    hide Whole, RoundDown, RoundUp;
    RoundUpIs(end, r.track);
    RoundDownIs(RoundUp(end, r.track), r.cluster);
    if Whole(r.cluster, r.sector) { FloorAbove(RoundUp(end, r.track), r.cluster, end); }
  }

  lemma NextOffsetNear(r: Request, end: nat)
    requires r.track > 0 && r.cluster > 0 && r.sector > 0
    ensures NextOffset(r, end) < end + r.track && NextStart(r, end, NextOffset(r, end))
  {
    hide Whole, RoundDown, RoundUp;
    RoundUpIs(end, r.track);
    RoundDownIs(RoundUp(end, r.track), r.cluster);
    assert Smallest(RoundUp(end, r.track), end, r.track);
  }

  /** Partitions of these sizes in front of the last of `p`, in order, and where that one starts. */
  ghost predicate FrontPart(r: Request, p: seq<Partition>, sizes: seq<nat>)
    requires r.track > 0 && r.cluster > 0 && r.sector > 0
  {
    var n := |sizes|;
    && |p| == n + 1 && Sizes(p[..n]) == sizes
    && p[0].offset == FirstOffset(r) && p[n].offset <= FirstOffset(r) + Total(sizes, r.track)
    && Stacked(p, n) && Upwards(r, p, n)
  }

  /** The first `n` partitions are in order, before the offset of the next. */
  ghost predicate Stacked(p: seq<Partition>, n: nat)
    requires n < |p|
  {
    && (forall i :: 0 <= i < n ==> p[i].End() <= p[n].offset)
    && (forall i, j :: 0 <= i < j < n ==> p[i].End() <= p[j].offset)
  }

  ghost predicate FrontOk(r: Request, p: seq<Partition>)
    requires r.track > 0 && r.cluster > 0 && r.sector > 0
  {
    FrontPart(r, p, Front(r))
  }

  lemma {:induction false} TotalLast(sizes: seq<nat>, size: nat, track: nat)
    ensures Total(sizes + [size], track) == Total(sizes, track) + size + track
  {
    if sizes == [] {
      assert [] + [size] == [size] && [size][1..] == [];
    } else {
      TotalLast(sizes[1..], size, track);
      assert (sizes + [size])[1..] == sizes[1..] + [size];
    }
  }

  lemma UpwardsMore(r: Request, p: seq<Partition>, q: seq<Partition>, n: nat)
    requires r.track > 0 && r.cluster > 0 && r.sector > 0 && |p| == n + 1 && |q| == n + 2 && p[..n] == q[..n]
    requires Upwards(r, p, n) && q[n].offset == p[n].offset && NextStart(r, q[n].End(), q[n + 1].offset)
    ensures Upwards(r, q, n + 1)
  {
    hide NextStart;
    forall i | 0 <= i <= n ensures NextStart(r, q[i].End(), q[i + 1].offset) {
      if i + 1 < n { assert q[i + 1] == q[..n][i + 1] == p[i + 1]; }
      if i < n { assert q[i] == q[..n][i] == p[i]; }
    }
  }

  /** One more partition in front. */
  lemma FrontMore(r: Request, p: seq<Partition>, sizes: seq<nat>, size: nat, next: Partition)
    requires r.track > 0 && r.cluster > 0 && r.sector > 0 && FrontPart(r, p, sizes)
    requires
      var end := p[|sizes|].offset + size;
      end <= next.offset <= end + r.track && NextStart(r, end, next.offset)
    ensures FrontPart(r, p[..|sizes|] + [Partition(p[|sizes|].offset, size), next], sizes + [size])
  {
    hide FirstOffset, Total, NextStart, Upwards, Stacked, Sizes;
    TotalLast(sizes, size, r.track);
    var n := |sizes|;
    var q := p[..n] + [Partition(p[n].offset, size), next];
    assert q[..n] == p[..n];
    UpwardsMore(r, p, q, n);
    StackedMore(p, q, n);
    FrontSizes(p, q, n, size);
    assert q[0].offset == p[0].offset;
  }

  lemma FrontSizes(p: seq<Partition>, q: seq<Partition>, n: nat, size: nat)
    requires n < |p| && |q| == n + 2 && p[..n] == q[..n] && q[n].size == size
    ensures Sizes(q[..n + 1]) == Sizes(p[..n]) + [size]
  {
    assert q[..n + 1] == q[..n] + [q[n]];
  }

  lemma StackedMore(p: seq<Partition>, q: seq<Partition>, n: nat)
    requires |p| == n + 1 && |q| == n + 2 && p[..n] == q[..n] && Stacked(p, n)
    requires q[n].offset == p[n].offset && q[n].End() <= q[n + 1].offset
    ensures Stacked(q, n + 1)
  {
    forall i | 0 <= i < n ensures q[i] == p[i] { assert q[i] == q[..n][i] == p[..n][i]; }
  }

  /** The partitions after `main`, placed from `last` on, on tracks. */
  ghost predicate BackOk(p: seq<Partition>, main: nat, last: nat, limit: nat, track: nat, back: seq<nat>)
    requires track > 0
  {
    && main < |p| == main + 1 + |back|
    && last == (if main + 1 < |p| then p[main + 1].offset else limit) <= limit
    && Downwards(p, main, limit, track)
    && (forall i :: main < i < |p| ==> last <= p[i].offset && p[i].End() <= limit)
    && (forall i, j :: main < i < j < |p| ==> p[i].End() <= p[j].offset)
    && Sizes(p[main + 1..]) == back
  }

  class Layout {
    const parts: array<Partition>
    var num: nat

    ghost predicate Valid()
      reads this
    {
      parts.Length == MAX_PARTITIONS && num <= MAX_PARTITIONS
    }

    constructor ()
      ensures Valid() && num == 0 && fresh(parts)
      ensures forall i :: 0 <= i < MAX_PARTITIONS ==> parts[i] == Partition(0, 0)
    {
      parts := new Partition[MAX_PARTITIONS](_ => Partition(0, 0));
      num := 0;
    }

    /** A partition in front of the main one. The assertion on the next offset is the result. */
    method PushFront(r: Request, size: nat, ghost sizes: seq<nat>) returns (ok: bool)
      requires Valid() && num + 1 < MAX_PARTITIONS && r.track > 0 && r.cluster > 0 && r.sector > 0
      requires |sizes| == num && FrontPart(r, parts[..num + 1], sizes)
      modifies this`num, parts
      ensures Valid() && num == old(num) + 1 && parts[num].offset == NextOffset(r, old(parts[num].offset) + size)
      ensures ok ==> FrontPart(r, parts[..num + 1], sizes + [size])
      ensures ok <==> old(parts[num].offset) + size <= NextOffset(r, old(parts[num].offset) + size)
    {
      hide NextOffset, FrontPart, NextStart;
      ghost var p := parts[..num + 1];
      var end := parts[num].offset + size;
      NextOffsetNear(r, end);
      parts[num] := Partition(parts[num].offset, size);
      parts[num + 1] := Partition(NextOffset(r, end), parts[num + 1].size);
      ok := parts[num + 1].offset >= parts[num].End();
      if ok { FrontMore(r, p, sizes, size, parts[num + 1]); }
      num := num + 1;
      assert parts[..num + 1] == p[..num - 1] + [parts[num - 1], parts[num]];
    }

    /** A partition after the main one, of which only the size is known yet. */
    method PushBack(size: nat)
      requires Valid() && num < MAX_PARTITIONS
      modifies this`num, parts
      ensures Valid() && num == old(num) + 1 && parts[old(num)].size == size
      ensures forall i :: 0 <= i < num - 1 ==> parts[i] == old(parts[i])
    {
      parts[num] := Partition(parts[num].offset, size);
      num := num + 1;
    }

    /** The offsets of the partitions after the main one, downwards from `limit`. */
    method PlaceBack(r: Request, main: nat, limit: nat, ghost back: seq<nat>) returns (ok: bool, last: nat)
      requires Valid() && main < num && r.track > 0 && |back| == num - main - 1
      requires Sizes(parts[main + 1..num]) == back
      modifies parts
      ensures Valid() && parts[..main + 1] == old(parts[..main + 1])
      ensures Total(back, r.track) <= limit ==> ok && limit - Total(back, r.track) <= last
      ensures ok ==> BackOk(parts[..num], main, last, limit, r.track, back)
    {
      hide Whole, RoundDown, Total, BackOk, Sizes;
      last := limit;
      var i := num - 1;
      ghost var was := parts[..num];
      BackNone(was, limit, r.track);
      TotalStep(back, |back|, r.track);
      assert was[main + 1..] == parts[main + 1..num];
      while i > main
        invariant main <= i < num == old(num) && last <= limit
        invariant parts[..i + 1] == was[..i + 1] && BackOk(parts[..num], i, last, limit, r.track, back[i - main..])
        invariant Total(back, r.track) <= limit ==> limit - Total(back[i - main..], r.track) <= last
      {
        ghost var k := i - main - 1;
        TotalStep(back, k, r.track);
        assert parts[i] == parts[..i + 1][i] == was[i] == was[main + 1..][k];
        if parts[i].size >= last { return false, last; }
        last := PlaceOne(r, i, last, limit, back[k + 1..]);
        assert back[k..] == [back[k]] + back[k + 1..];
        i := i - 1;
      }
      assert back[0..] == back;
      ok := true;
    }

    /** One partition below the others. */
    method PlaceOne(r: Request, i: nat, last: nat, limit: nat, ghost back: seq<nat>) returns (at: nat)
      requires Valid() && 0 < i < num && r.track > 0 && parts[i].size < last
      requires BackOk(parts[..num], i, last, limit, r.track, back)
      modifies parts
      ensures Valid() && parts[..i] == old(parts[..i]) && at <= last <= at + old(parts[i].size) + r.track
      ensures BackOk(parts[..num], i - 1, at, limit, r.track, [old(parts[i].size)] + back)
    {
      hide Whole, RoundDown, BackOk;
      ghost var p := parts[..num];
      RoundDownIs(last - parts[i].size, r.track);
      at := RoundDown(last - parts[i].size, r.track);
      parts[i] := Partition(at, parts[i].size);
      assert parts[..num] == p[i := parts[i]];
      BackMore(p, i, last, limit, r.track, back, parts[i]);
    }
  }

  lemma BackNone(p: seq<Partition>, limit: nat, track: nat)
    requires p != [] && track > 0
    ensures BackOk(p, |p| - 1, limit, limit, track, [])
  {
  }

  /** One more partition below the others. */
  lemma BackMore(p: seq<Partition>, i: nat, last: nat, limit: nat, track: nat, back: seq<nat>, x: Partition)
    requires i > 0 && track > 0 && BackOk(p, i, last, limit, track, back) && Largest(x.offset, last - x.size, track)
    ensures BackOk(p[i := x], i - 1, x.offset, limit, track, [x.size] + back)
  {
    hide Whole, Sizes;
    var q := p[i := x];
    BackSizes(p, i, x);
    forall j | i <= j < |q|
      ensures Largest(q[j].offset, Next(q, j, limit) - q[j].size, track)
      ensures x.offset <= q[j].offset && q[j].End() <= limit
    {
      if j > i { assert q[j] == p[j] && Next(q, j, limit) == Next(p, j, limit); }
    }
    forall j, k | i <= j < k < |q| ensures q[j].End() <= q[k].offset {
      assert q[k] == p[k];
      if j > i { assert q[j] == p[j]; }
    }
  }

  lemma BackSizes(p: seq<Partition>, i: nat, x: Partition)
    requires i < |p|
    ensures Sizes(p[i := x][i..]) == [x.size] + Sizes(p[i + 1..])
  {
    assert p[i := x][i..] == [x] + p[i + 1..];
  }

  lemma {:induction false} TotalStep(sizes: seq<nat>, k: nat, track: nat)
    requires k <= |sizes|
    ensures Total([], track) == 0 && sizes[|sizes|..] == []
    ensures Total(sizes[k..], track) <= Total(sizes, track)
    ensures k < |sizes| ==> Total(sizes[k..], track) == sizes[k] + track + Total(sizes[k + 1..], track)
  {
    if k < |sizes| { assert sizes[k..][1..] == sizes[k + 1..]; }
    if k == 0 {
      assert sizes[0..] == sizes;
    } else {
      TotalStep(sizes[1..], k - 1, track);
      assert sizes[1..][k - 1..] == sizes[k..];
    }
  }

  /** How the computation ends; `Misaligned` and `NoRoom` are its assertions. */
  datatype Verdict = Created(main: nat) | Nothing | NoImage | BadStyle | Misaligned | NoRoom

  /** The first offset: one megabyte, or two tracks rounded up to clusters. */
  function FirstOffset(r: Request): nat
    requires r.cluster > 0
  {
    if r.style == Gpt || !r.oldBios then MB else 2 * RoundUp(r.track, r.cluster)
  }

  /** Sizes and offsets of the front: whole clusters, when a cluster divides a megabyte. */
  lemma FrontWhole(r: Request, offset: nat, megabytes: nat)
    requires r.track > 0 && r.cluster > 0 && r.sector > 0 && Whole(MB, r.cluster)
    requires Whole(r.cluster, r.sector) ==> Whole(offset, r.cluster)
    ensures
      var end := offset + megabytes * MB;
      && end <= NextOffset(r, end)
      && (Whole(r.cluster, r.sector) ==> Whole(NextOffset(r, end), r.cluster))
  {
    hide Whole, NextOffset;
    MegabytesWhole(r.cluster, megabytes);
    if Whole(r.cluster, r.sector) { WholeSum(offset, megabytes * MB, r.cluster); }
    NextOffsetIs(r, offset + megabytes * MB);
  }

  lemma {:induction false} MegabytesWhole(cluster: nat, n: nat)
    requires cluster > 0 && Whole(MB, cluster)
    ensures Whole(n * MB, cluster)
  {
    hide Whole;
    if n == 0 { WholeSum(MB, 0, cluster); }
    else { MegabytesWhole(cluster, n - 1); WholeSum((n - 1) * MB, MB, cluster); }
  }

  lemma FirstIs(r: Request)
    requires r.cluster > 0 && r.style == Gpt
    ensures FirstOffset(r) == MB
  {
  }

  /** The partitions in front of the main one. */
  method PlaceFront(layout: Layout, r: Request) returns (ok: bool)
    requires layout.Valid() && layout.num == 0 && r.track > 0 && r.cluster > 0 && r.sector > 0
    modifies layout, layout.parts
    ensures layout.Valid() && layout.num <= 2
    ensures ok ==> FrontOk(r, layout.parts[..layout.num + 1])
    ensures Whole(MB, r.cluster) && (r.msr || (r.esp && r.espFirst) ==> r.style == Gpt) ==> ok
  {
    hide Whole, NextOffset, RoundUp, FirstOffset, FrontPart;
    layout.parts[0] := Partition(FirstOffset(r), 0);
    ok := true;
    ghost var sizes: seq<nat> := [];
    FrontNone(r, layout.parts[..1]);
    ghost var aligned := Whole(MB, r.cluster) && (r.msr || (r.esp && r.espFirst) ==> r.style == Gpt);
    if r.espFirst && r.esp {
      if aligned { FrontWhole(r, MB, 260); FirstIs(r); }
      ok := layout.PushFront(r, 260 * MB, sizes);
      if !ok { return; }
      sizes := sizes + [260 * MB];
    }
    if r.msr {
      if aligned { FirstIs(r); FrontWhole(r, layout.parts[layout.num].offset, 128); }
      ok := layout.PushFront(r, 128 * MB, sizes);
      sizes := sizes + [128 * MB];
    }
    assert sizes == Front(r);
  }

  lemma FrontNone(r: Request, p: seq<Partition>)
    requires r.track > 0 && r.cluster > 0 && r.sector > 0 && |p| == 1 && p[0].offset == FirstOffset(r)
    ensures FrontPart(r, p, [])
  {
  }

  /** The partitions after the main one, by size. */
  method ListBack(layout: Layout, r: Request)
    requires layout.Valid() && layout.num <= 3 && r.track > 0
    modifies layout`num, layout.parts
    ensures layout.Valid() && layout.num == old(layout.num) + |Back(r)| <= 5
    ensures Sizes(layout.parts[old(layout.num)..layout.num]) == Back(r)
    ensures layout.parts[..old(layout.num)] == old(layout.parts[..layout.num])
  {
    if r.persistence { layout.PushBack(RoundUp(r.persistenceSize, r.track)); }
    if r.esp && !r.espFirst { layout.PushBack(RoundUp(260 * MB, r.track)); }
    else if r.uefiNtfs { layout.PushBack(RoundUp(r.uefiNtfsSize, r.track)); }
    else if r.compat { layout.PushBack(r.track); }
  }

  /** The main partition gets the room left, in whole tracks, and in whole clusters if it can. */
  method SizeMain(r: Request, room: nat) returns (size: nat)
    requires r.track > 0 && r.cluster > 0 && r.sector > 0
    ensures MainSize(r, room, size) && size <= room < size + r.track + r.cluster
  {
    hide RoundDown, Whole;
    RoundDownIs(room, r.track);
    size := RoundDown(room, r.track);
    ghost var tracks := size;
    assert Largest(tracks, room, r.track);
    RoundDownIs(size, r.cluster);
    if Whole(r.cluster, r.sector) { size := RoundDown(size, r.cluster); }
  }

  /** The layout part of CreatePartition. What it creates is laid out properly; and when a cluster
      divides a megabyte and the style is right for the partitions asked for, it fails only for lack of
      room, or of the image to be put in a partition. */
  method Create(request: Request) returns (v: Verdict, layout: Layout)
    requires request.sector > 0 && request.track > 0
    ensures fresh(layout) && layout.Valid()
    ensures
      var r := if request.cluster == 0 then request.(cluster := 0x200) else request;
      && (v.Created? ==> Laid(r, layout.parts[..layout.num], v.main) && Asked(r, layout.parts[..layout.num], v.main))
      && (v == Nothing <==> r.style == SuperFloppy)
      && (v == NoImage <==> r.style != SuperFloppy && r.uefiNtfs && r.uefiNtfsSize == 0)
      && (v == BadStyle ==> r.style == Mbr && (r.msr || (r.esp && r.espFirst)))
      && (Whole(MB, r.cluster) ==> v != Misaligned)
      && (v == NoRoom ==> Limit(r) < Needed(r))
  {
    hide Whole, RoundUp, Laid, Asked, Needed;
    layout := new Layout();
    var r := if request.cluster == 0 then request.(cluster := 0x200) else request;
    if r.style == SuperFloppy { return Nothing, layout; }
    if r.uefiNtfs && r.uefiNtfsSize == 0 { return NoImage, layout; }
    if r.style != Gpt && (r.msr || (r.esp && r.espFirst)) { return BadStyle, layout; }
    var ok := PlaceFront(layout, r);
    if !ok { return Misaligned, layout; }
    v := PlaceRest(layout, r);
  }

  /** The main partition and those after it. */
  method PlaceRest(layout: Layout, r: Request) returns (v: Verdict)
    requires layout.Valid() && r.track > 0 && r.cluster > 0 && r.sector > 0
    requires layout.num <= 2 && FrontOk(r, layout.parts[..layout.num + 1])
    modifies layout, layout.parts
    ensures layout.Valid() && (v == NoRoom || v.Created?)
    ensures v.Created? ==> Laid(r, layout.parts[..layout.num], v.main) && Asked(r, layout.parts[..layout.num], v.main)
    ensures v == NoRoom ==> Limit(r) < Needed(r)
  {
    hide Laid, Asked, FrontOk, BackOk, FirstOffset, Total, Back, Limit, MainSize;
    var main := layout.num;
    FrontEnds(r, layout.parts[..main + 1]);
    layout.num := layout.num + 1;
    ListBack(layout, r);
    var ok, last := layout.PlaceBack(r, main, Limit(r), Back(r));
    var offset := layout.parts[main].offset;
    assert offset == layout.parts[..main + 1][main].offset;
    if !ok || last <= offset { return NoRoom; }
    var size := SizeMain(r, last - offset);
    if size == 0 { return NoRoom; }
    ghost var before := layout.parts[..layout.num];
    assert before[..main + 1] == layout.parts[..main + 1];
    layout.parts[main] := Partition(offset, size);
    assert layout.parts[..layout.num] == before[main := Partition(offset, size)];
    Assembled(r, before, main, last, size);
    v := Created(main);
  }

  lemma FrontEnds(r: Request, p: seq<Partition>)
    requires r.track > 0 && r.cluster > 0 && r.sector > 0 && FrontOk(r, p)
    ensures |p| > 0 && p[|p| - 1].offset <= FirstOffset(r) + Total(Front(r), r.track)
  {
  }

  /** The front, the back and the main partition between them. */
  lemma Assembled(r: Request, parts: seq<Partition>, main: nat, last: nat, size: nat)
    requires r.track > 0 && r.cluster > 0 && r.sector > 0 && main < |parts|
    requires 0 < size && parts[main].offset + size <= last && MainSize(r, last - parts[main].offset, size)
    requires FrontOk(r, parts[..main + 1]) && BackOk(parts, main, last, Limit(r), r.track, Back(r))
    ensures
      var all := parts[main := Partition(parts[main].offset, size)];
      Laid(r, all, main) && Asked(r, all, main)
  {
    LaidOut(r, parts, main, last, size);
    AskedFor(r, parts, main, last, size);
  }

  lemma LaidOut(r: Request, parts: seq<Partition>, main: nat, last: nat, size: nat)
    requires r.track > 0 && r.cluster > 0 && r.sector > 0 && main < |parts|
    requires 0 < size && parts[main].offset + size <= last && MainSize(r, last - parts[main].offset, size)
    requires FrontOk(r, parts[..main + 1]) && BackOk(parts, main, last, Limit(r), r.track, Back(r))
    ensures Laid(r, parts[main := Partition(parts[main].offset, size)], main)
  {
    hide InOrder, Upwards, Downwards, Back, MainSize, Limit, FrontOk, BackOk;
    var all := parts[main := Partition(parts[main].offset, size)];
    FrontBefore(r, parts, main);
    BackAfter(parts, main, last, Limit(r), r.track, Back(r));
    LaidOrder(parts, main, last, Limit(r), all);
    LaidFront(r, parts, main, all);
    LaidBack(r, parts, main, Limit(r), all);
  }

  lemma LaidFront(r: Request, parts: seq<Partition>, main: nat, all: seq<Partition>)
    requires r.track > 0 && r.cluster > 0 && r.sector > 0 && main < |parts|
    requires |all| == |parts| && all == parts[main := all[main]] && all[main].offset == parts[main].offset
    requires Upwards(r, parts, main)
    ensures Upwards(r, all, main)
  {
    hide NextStart;
    forall i | 0 <= i < main ensures NextStart(r, all[i].End(), all[i + 1].offset) {
      assert all[i] == parts[i] && all[i + 1].offset == parts[i + 1].offset;
    }
  }

  lemma LaidBack(r: Request, parts: seq<Partition>, main: nat, limit: nat, all: seq<Partition>)
    requires r.track > 0 && main < |parts| && |all| == |parts| && all == parts[main := all[main]]
    requires Downwards(parts, main, limit, r.track)
    ensures Next(all, main, limit) == Next(parts, main, limit) && Downwards(all, main, limit, r.track)
  {
    hide Largest;
    forall i | main < i < |all| ensures Largest(all[i].offset, Next(all, i, limit) - all[i].size, r.track) {
      assert all[i] == parts[i] && Next(all, i, limit) == Next(parts, i, limit);
    }
  }

  lemma FrontBefore(r: Request, parts: seq<Partition>, main: nat)
    requires r.track > 0 && r.cluster > 0 && r.sector > 0 && main < |parts| && FrontOk(r, parts[..main + 1])
    ensures Upwards(r, parts, main)
    ensures forall i :: 0 <= i < main ==> parts[i].End() <= parts[main].offset
    ensures forall i, j :: 0 <= i < j < main ==> parts[i].End() <= parts[j].offset
  {
    hide Front, FirstOffset, Total, Sizes, NextStart;
    var front := parts[..main + 1];
    assert forall i :: 0 <= i <= main ==> front[i] == parts[i];
  }

  lemma BackAfter(parts: seq<Partition>, main: nat, last: nat, limit: nat, track: nat, back: seq<nat>)
    requires track > 0 && BackOk(parts, main, last, limit, track, back)
    ensures main < |parts| && last == (if main + 1 < |parts| then parts[main + 1].offset else limit) <= limit
    ensures Downwards(parts, main, limit, track) && last == Next(parts, main, limit)
    ensures forall i :: main < i < |parts| ==> last <= parts[i].offset && parts[i].End() <= limit
    ensures forall i, j :: main < i < j < |parts| ==> parts[i].End() <= parts[j].offset
  {
    hide Largest, Sizes;
  }

  lemma LaidOrder(parts: seq<Partition>, main: nat, last: nat, limit: nat, all: seq<Partition>)
    requires main < |parts| && |all| == |parts| && all == parts[main := all[main]] && last <= limit
    requires all[main].offset == parts[main].offset && all[main].End() <= last
    requires forall i :: 0 <= i < main ==> parts[i].End() <= parts[main].offset
    requires forall i, j :: 0 <= i < j < main ==> parts[i].End() <= parts[j].offset
    requires forall i :: main < i < |parts| ==> last <= parts[i].offset && parts[i].End() <= limit
    requires forall i, j :: main < i < j < |parts| ==> parts[i].End() <= parts[j].offset
    ensures InOrder(all, limit)
  {
  }

  lemma AskedFor(r: Request, parts: seq<Partition>, main: nat, last: nat, size: nat)
    requires r.track > 0 && r.cluster > 0 && r.sector > 0 && main < |parts|
    requires FrontOk(r, parts[..main + 1]) && BackOk(parts, main, last, Limit(r), r.track, Back(r))
    ensures Asked(r, parts[main := Partition(parts[main].offset, size)], main)
  {
    hide Whole, Front, Back, FirstOffset, Total, Limit;
    var front, all := parts[..main + 1], parts[main := Partition(parts[main].offset, size)];
    assert front[..main] == all[..main] && all[main + 1..] == parts[main + 1..];
    assert front[0] == parts[0];
  }
}
