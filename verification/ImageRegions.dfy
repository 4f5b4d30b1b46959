/** The regions of a PE image that are hashed (src/hash.c:1575-1648 and 1835-1862): a bounded list,
    kept in address order, whose digest does not depend on the order of insertion. */
module ImageRegions {
  import opened Arithmetic
  import opened HashStream

  /** The bytes from `data` up to `data + size`. */
  datatype Region = Region(data: nat, size: nat) {
    function End(): nat { data + size }
  }

  /** `a` lies wholly before `b`. */
  predicate Before(a: Region, b: Region)
  {
    a.End() <= b.data
  }

  /** Neither lies wholly before the other. */
  predicate Overlap(a: Region, b: Region)
  {
    !Before(a, b) && !Before(b, a)
  }

  predicate Ordered(s: seq<Region>)
  {
    forall i, j :: 0 <= i < j < |s| ==> Before(s[i], s[j])
  }

  lemma InsertedOrdered(s: seq<Region>, i: nat, r: Region)
    requires Ordered(s) && i <= |s|
    requires (forall k :: 0 <= k < i ==> Before(s[k], r)) && (forall k :: i <= k < |s| ==> Before(r, s[k]))
    ensures Ordered(s[..i] + [r] + s[i..])
  {
    hide Before;
  }

  lemma InsertedAll(s: seq<Region>, i: nat, r: Region)
    requires i <= |s|
    ensures multiset(s[..i] + [r] + s[i..]) == multiset(s) + multiset{r}
  {
    assert s == s[..i] + s[i..];
  }

  /** `p` is the address of a byte of the region. */
  predicate Covers(r: Region, p: nat)
  {
    r.data <= p < r.End()
  }

  /** For a region that is not empty, to overlap means to have a byte in common, or to surround an
      empty region. */
  lemma OverlapMeans(a: Region, b: Region)
    requires a.size > 0
    ensures b.size > 0 ==> (Overlap(a, b) <==> exists p :: Covers(a, p) && Covers(b, p))
    ensures b.size == 0 ==> (Overlap(a, b) <==> a.data < b.data < a.End())
  {
    if Overlap(a, b) && b.size > 0 {
      var p := if a.data < b.data then b.data else a.data;
      assert Covers(a, p) && Covers(b, p);
    }
  }

  /** A multiset of regions has only one list in address order. */
  lemma {:induction false} OrderedUnique(s: seq<Region>, t: seq<Region>)
    requires Ordered(s) && Ordered(t) && multiset(s) == multiset(t)
    ensures s == t
  {
    hide Ordered;
    assert |multiset(s)| == |multiset(t)|;
    if s != [] {
      var n := |s| - 1;
      LastUnique(s, t);
      Init(s);
      Init(t);
      OrderedUnique(s[..n], t[..n]);
    }
  }

  lemma Init(s: seq<Region>)
    requires s != []
    ensures
      var n := |s| - 1;
      s == s[..n] + [s[n]] && multiset(s[..n]) == multiset(s) - multiset{s[n]} && (Ordered(s) ==> Ordered(s[..n]))
  {
    var n := |s| - 1;
    assert s == s[..n] + [s[n]];
  }

  lemma LastUnique(s: seq<Region>, t: seq<Region>)
    requires Ordered(s) && Ordered(t) && multiset(s) == multiset(t) && |s| == |t| > 0
    ensures s[|s| - 1] == t[|t| - 1]
  {
    var n := |s| - 1;
    var x, y := s[n], t[n];
    assert x in multiset(t) && y in multiset(s);
    var i :| 0 <= i <= n && t[i] == x;
    var j :| 0 <= j <= n && s[j] == y;
    if i != n && j != n {
      assert Before(x, y) && Before(y, x);
    }
  }

  /** The region overlaps none of the list. */
  predicate Clear(r: Region, s: seq<Region>)
  {
    forall k :: 0 <= k < |s| ==> !Overlap(r, s[k])
  }

  lemma Moved(was: seq<Region>, now: seq<Region>, i: nat)
    requires i <= |was| == |now| - 1
    requires (forall k :: 0 <= k < i ==> now[k] == was[k]) && (forall k :: i <= k < |was| ==> now[k + 1] == was[k])
    ensures now[..i] == was[..i] && now[i + 1..] == was[i..]
  {
    forall k | 0 <= k < |was| - i ensures now[i + 1..][k] == was[i..][k] {
      assert now[(i + k) + 1] == was[i + k];
    }
  }

  class Regions {
    const max: nat
    const reg: array<Region>
    var num: nat

    ghost predicate Valid()
      reads this, reg
    {
      reg.Length == max && num <= max
    }

    ghost function List(): seq<Region>
      reads this, reg
      requires Valid()
    {
      reg[..num]
    }

    constructor (max: nat)
      ensures Valid() && this.max == max && List() == [] && fresh(reg)
    {
      this.max := max;
      reg := new Region[max](_ => Region(0, 0));
      num := 0;
    }

    /** Move the regions from `i` on up one place. */
    method ShiftUp(i: nat)
      requires Valid() && i <= num < max
      modifies reg
      ensures Valid() && reg[..i] == old(reg[..i]) && reg[i + 1..num + 1] == old(reg[i..num])
    {
      ghost var was := reg[..num];
      var j := num - 1;
      while j >= i
        invariant i - 1 <= j < num && num == old(num)
        invariant forall k :: 0 <= k <= j ==> reg[k] == was[k]
        invariant forall k :: j < k < num ==> reg[k + 1] == was[k]
      {
        reg[j + 1] := reg[j];
        j := j - 1;
      }
      Moved(was, reg[..num + 1], i);
    }

    /** efi_image_region_add. A checked region is refused exactly when the list is full, the bounds are
        the wrong way round, or it overlaps one of the list; an unchecked one goes to the end. */
    method Add(start: nat, end: nat, nocheck: bool) returns (ok: bool)
      requires Valid() && end - start < 0x1_0000_0000 && (!nocheck ==> Ordered(List()))
      modifies this`num, reg
      ensures Valid() && (!ok ==> List() == old(List()))
      ensures nocheck ==> (ok <==> old(num) < max && start <= end)
      ensures !nocheck ==> (ok <==> old(num) < max && start <= end && Clear(Region(start, end - start), old(List())))
      ensures ok && nocheck ==> List() == old(List()) + [Region(start, end - start)]
      ensures ok && !nocheck ==>
        Ordered(List()) && multiset(List()) == old(multiset(List())) + multiset{Region(start, end - start)}
    {
      if num >= max { return false; }
      if end < start { return false; }
      var r := Region(start, end - start);
      ghost var was := List();
      var i := 0;
      while i < num
        invariant 0 <= i <= num == old(num) && Valid() && List() == was
        invariant !nocheck ==> forall k :: 0 <= k < i ==> Before(was[k], r)
      {
        if nocheck || start >= reg[i].End() {
          i := i + 1;
        } else if end <= reg[i].data {
          assert forall k :: i < k < num ==> Before(was[i], was[k]);
          ShiftUp(i);
          break;
        } else {
          assert Overlap(r, was[i]);
          return false;
        }
      }
      reg[i] := r;
      num := num + 1;
      ok := true;
      assert reg[..num] == was[..i] + [r] + was[i..];
      if nocheck {
        assert was[..i] + [r] + was[i..] == was + [r];
      } else {
        InsertedOrdered(was, i, r);
        InsertedAll(was, i, r);
      }
    }
  }

  /** The bytes of the regions, in the order of the list. */
  function Slices(image: seq<byte>, regions: seq<Region>): (r: seq<seq<byte>>)
    requires forall k :: 0 <= k < |regions| ==> regions[k].End() <= |image|
    ensures |r| == |regions|
  {
    seq(|regions|, k requires 0 <= k < |regions| && regions[k].End() <= |image| =>
      image[regions[k].data..regions[k].End()])
  }

  lemma OrderedInit(list: seq<Region>)
    requires Ordered(list)
    ensures list != [] ==> Ordered(list[..|list| - 1])
    ensures |list| > 1 ==> list[|list| - 2].End() <= list[|list| - 1].data
  {
  }

  lemma SlicesInit(image: seq<byte>, list: seq<Region>)
    requires list != [] && forall k :: 0 <= k < |list| ==> list[k].End() <= |image|
    ensures
      var n := |list| - 1;
      Slices(image, list)[..n] == Slices(image, list[..n]) &&
        Slices(image, list)[n] == image[list[n].data..list[n].End()]
  {
  }

  const MAX_IMAGE: nat := 0x400_0000

  /** Regions in address order have no more bytes than the image. */
  lemma {:induction false} SlicesFit(image: seq<byte>, list: seq<Region>)
    requires Ordered(list) && forall k :: 0 <= k < |list| ==> list[k].End() <= |image|
    ensures |Flatten(Slices(image, list))| <= if list == [] then 0 else list[|list| - 1].End()
  {
    hide Slices, Ordered;
    OrderedInit(list);
    if list != [] {
      var n := |list| - 1;
      SlicesFit(image, list[..n]);
      SlicesInit(image, list);
    }
  }

  /** Insert regions one after the other, checked, and hash them as PE256Buffer does. When all are taken,
      the digest is that of their bytes in address order: by OrderedUnique, whatever the order they
      came in. */
  method HashRegions<S(!new)>(alg: Algorithm<S>, image: seq<byte>, adds: seq<Region>, max: nat, accelerated: bool)
    returns (ok: bool, digest: S, ghost list: seq<Region>)
    requires Standard(alg) && |image| <= MAX_IMAGE
    requires forall k :: 0 <= k < |adds| ==> adds[k].End() <= |image|
    ensures ok ==> Ordered(list) && multiset(list) == multiset(adds) && |list| == |adds| <= max
    ensures ok ==> forall k :: 0 <= k < |list| ==> list[k].End() <= |image|
    ensures ok ==> digest == Digest(alg, Flatten(Slices(image, list)))
    ensures !ok ==> |adds| > max || exists i, j :: 0 <= i < j < |adds| && Overlap(adds[j], adds[i])
  {
    hide Digest, Flatten, Overlap, Before, Ordered, Slices;
    var regions := new Regions(max);
    digest, list := alg.init, [];
    OrderedNone();
    ok := AddAll(regions, adds);
    if !ok { return; }
    list := regions.List();
    SameRegions(list, adds, |image|);
    SlicesFit(image, list);
    digest := HashChunks(alg, Slices(image, regions.reg[..regions.num]), accelerated);
  }

  lemma OrderedNone()
    ensures Ordered([])
  {
  }

  lemma SameRegions(list: seq<Region>, adds: seq<Region>, size: nat)
    requires multiset(list) == multiset(adds) && forall k :: 0 <= k < |adds| ==> adds[k].End() <= size
    ensures |list| == |adds| && forall k :: 0 <= k < |list| ==> list[k].End() <= size
  {
    assert |multiset(list)| == |multiset(adds)|;
    forall k | 0 <= k < |list| ensures list[k].End() <= size {
      assert list[k] in multiset(list);
      assert list[k] in adds;
    }
  }

  lemma OneMore(adds: seq<Region>, k: nat, before: seq<Region>, after: seq<Region>)
    requires k < |adds| && multiset(before) == multiset(adds[..k])
    requires multiset(after) == multiset(before) + multiset{adds[k]}
    ensures multiset(after) == multiset(adds[..k + 1]) && |after| == k + 1
  {
    assert adds[..k + 1] == adds[..k] + [adds[k]];
    assert |multiset(after)| == |multiset(adds[..k + 1])|;
  }

  /** Insert a region, checked. */
  method AddOne(regions: Regions, r: Region) returns (ok: bool)
    requires regions.Valid() && Ordered(regions.List()) && r.size < 0x1_0000_0000
    modifies regions`num, regions.reg
    ensures regions.Valid() && (ok <==> old(regions.num) < regions.max && Clear(r, old(regions.List())))
    ensures ok ==> Ordered(regions.List()) && multiset(regions.List()) == old(multiset(regions.List())) + multiset{r}
  {
    hide Ordered, Overlap, Before, Clear;
    assert Region(r.data, r.End() - r.data) == r;
    ok := regions.Add(r.data, r.End(), false);
  }

  /** Insert the regions, checked, up to the first that is refused. */
  method AddAll(regions: Regions, adds: seq<Region>) returns (ok: bool)
    requires regions.Valid() && regions.List() == [] && Ordered([])
    requires forall k :: 0 <= k < |adds| ==> adds[k].size < 0x1_0000_0000
    modifies regions`num, regions.reg
    ensures regions.Valid()
    ensures ok ==> Ordered(regions.List()) && multiset(regions.List()) == multiset(adds) && |adds| <= regions.max
    ensures !ok ==> |adds| > regions.max || exists i, j :: 0 <= i < j < |adds| && Overlap(adds[j], adds[i])
  {
    hide Ordered, Overlap, Before, Clear;
    for k := 0 to |adds|
      invariant regions.Valid() && Ordered(regions.List())
      invariant multiset(regions.List()) == multiset(adds[..k]) && |regions.List()| == k
    {
      ghost var before := regions.List();
      ok := AddOne(regions, adds[k]);
      if !ok {
        if k < regions.max { Refused(adds, k, before); }
        return;
      }
      OneMore(adds, k, before, regions.List());
    }
    assert adds[..|adds|] == adds;
    ok := true;
  }

  lemma Refused(adds: seq<Region>, k: nat, before: seq<Region>)
    requires k < |adds| && multiset(before) == multiset(adds[..k]) && !Clear(adds[k], before)
    ensures exists i, j :: 0 <= i < j < |adds| && Overlap(adds[j], adds[i])
  {
    hide Overlap;
    var b :| 0 <= b < |before| && Overlap(adds[k], before[b]);
    assert before[b] in multiset(adds[..k]);
    var i :| 0 <= i < k && adds[..k][i] == before[b];
    assert Overlap(adds[k], adds[i]);
  }
}
