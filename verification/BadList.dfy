/** The growable list of bad blocks (src/badblocks.c:60-179), kept strictly sorted. */
module BadList {

  predicate Sorted(s: seq<nat>)
  {
    forall i, j :: 0 <= i < j < |s| ==> s[i] < s[j]
  }

  ghost function Elements(s: seq<nat>): set<nat>
  {
    set x | x in s
  }

  /** A strictly sorted list has as many elements as places. */
  lemma {:induction false} SortedCount(s: seq<nat>)
    requires Sorted(s)
    ensures |Elements(s)| == |s|
  {
    if s == [] {
      assert Elements(s) == {};
    } else {
      var n := |s| - 1;
      SortedCount(s[..n]);
      assert s == s[..n] + [s[n]];
      assert Elements(s) == Elements(s[..n]) + {s[n]};
      assert s[n] !in s[..n];
    }
  }

  /** A set of blocks has only one strictly sorted list. */
  lemma {:induction false} SortedUnique(s: seq<nat>, t: seq<nat>)
    requires Sorted(s) && Sorted(t) && Elements(s) == Elements(t)
    ensures s == t
  {
    SortedCount(s);
    SortedCount(t);
    if s != [] {
      var n := |s| - 1;
      LastGreatest(s);
      LastGreatest(t);
      assert s[n] in Elements(t) && t[n] in Elements(s);
      DropLast(s);
      DropLast(t);
      SortedUnique(s[..n], t[..n]);
      assert s == s[..n] + [s[n]] && t == t[..n] + [t[n]];
    }
  }

  lemma LastGreatest(s: seq<nat>)
    requires Sorted(s) && s != []
    ensures forall x :: x in Elements(s) ==> x <= s[|s| - 1]
  {
  }

  lemma DropLast(s: seq<nat>)
    requires Sorted(s) && s != []
    ensures Elements(s[..|s| - 1]) == Elements(s) - {s[|s| - 1]} && Sorted(s[..|s| - 1])
  {
    assert s == s[..|s| - 1] + [s[|s| - 1]];
  }

  lemma InsertedSorted(s: seq<nat>, j: nat, x: nat)
    requires Sorted(s) && j <= |s|
    requires (forall i :: 0 <= i < j ==> s[i] < x) && (forall i :: j <= i < |s| ==> x < s[i])
    ensures Sorted(s[..j] + [x] + s[j..])
    ensures Elements(s[..j] + [x] + s[j..]) == Elements(s) + {x}
  {
    var t := s[..j] + [x] + s[j..];
    assert s == s[..j] + s[j..];
    forall y ensures y in t <==> y in s || y == x {}
  }

  class List {
    var list: array<nat>
    var num: nat

    ghost predicate Valid()
      reads this, list
    {
      num <= list.Length && Sorted(list[..num])
    }

    ghost function Blocks(): set<nat>
      reads this, list
    {
      if num <= list.Length then Elements(list[..num]) else {}
    }

    /** bb_badblocks_list_create. */
    constructor (size: nat)
      ensures Valid() && num == 0 && Blocks() == {} && fresh(list)
    {
      list := new nat[if size != 0 then size else 10];
      num := 0;
    }

    /** The reallocation: 100 more places, the old contents kept. */
    method Grow()
      requires Valid()
      modifies this, list
      ensures Valid() && num == old(num) < list.Length
      ensures list[..num] == old(list[..num]) && (list == old(list) || fresh(list))
    {
      if num >= list.Length {
        var larger := new nat[list.Length + 100](i requires 0 <= i reads this, list =>
          if i < list.Length then list[i] else 0);
        assert larger[..num] == list[..num];
        list := larger;
      }
    }

    /** The place of the first greater element. */
    method Place(blk: nat) returns (j: nat, found: bool)
      requires Valid()
      ensures found <==> blk in Blocks()
      ensures !found ==>
        j <= num && (forall i :: 0 <= i < j ==> list[i] < blk) && (forall i :: j <= i < num ==> blk < list[i])
    {
      j := num;
      for i := 0 to num
        invariant forall k :: 0 <= k < i ==> list[k] < blk
      {
        if list[i] == blk {
          assert list[..num][i] == blk;
          return i, true;
        }
        if list[i] > blk {
          j := i;
          assert forall k :: i < k < num ==> list[..num][i] < list[..num][k];
          assert forall k :: i < k < num ==> list[i] < list[k];
          return j, false;
        }
      }
      found := false;
    }

    /** bb_u64_list_add: the list stays strictly sorted, and gains the block once. */
    method Add(blk: nat)
      requires Valid()
      modifies this, list
      ensures Valid() && Blocks() == old(Blocks()) + {blk}
      ensures list == old(list) || fresh(list)
    {
      Grow();
      ghost var before := list[..num];
      var i := num - 1;
      if num != 0 && list[i] == blk {
        assert before[i] == blk;
        return;
      }
      if num == 0 || list[i] < blk {
        AddLast(blk);
        return;
      }
      var j, found := Place(blk);
      if found { return; }
      InsertAt(j, blk);
      InsertedSorted(before, j, blk);
    }

    /** A block after all others goes to the end. */
    method AddLast(blk: nat)
      requires Valid() && num < list.Length && (num == 0 || list[num - 1] < blk)
      modifies this`num, list
      ensures Valid() && Blocks() == old(Blocks()) + {blk}
    {
      ghost var before := list[..num];
      assert forall k :: 0 <= k < num ==> before[k] <= before[num - 1];
      InsertedSorted(before, num, blk);
      list[num] := blk;
      num := num + 1;
      assert list[..num] == before[..|before|] + [blk] + before[|before|..];
    }

    /** Make room at `j` by moving the rest up one place. */
    method InsertAt(j: nat, blk: nat)
      requires num < list.Length && j <= num
      modifies this`num, list
      ensures num == old(num) + 1 && list[..num] == old(list[..num])[..j] + [blk] + old(list[..num])[j..]
    {
      ghost var was := list[..num];
      var i := num;
      while i > j
        invariant j <= i <= num == old(num) && list == old(list)
        invariant forall k :: 0 <= k < i ==> list[k] == was[k]
        invariant forall k :: i < k <= num ==> list[k] == was[k - 1]
      {
        list[i] := list[i - 1];
        i := i - 1;
      }
      list[j] := blk;
      num := num + 1;
      assert list[..num] == was[..j] + [blk] + was[j..];
    }

    /** bb_u64_list_find: binary search agrees with membership, and gives the place. */
    method Find(blk: nat) returns (k: int)
      requires Valid()
      ensures k == -1 <==> blk !in Blocks()
      ensures k == -1 || (0 <= k < num && list[k] == blk)
    {
      if num == 0 { return -1; }
      var low, high := 0, num - 1;
      ghost var s := list[..num];
      assert forall q :: 0 <= q < num ==> s[q] == list[q];
      if blk == list[low] { assert s[low] in s; return low; }
      if blk == list[high] { assert s[high] in s; return high; }
      while low < high
        invariant 0 <= low <= high < num
        invariant forall q :: 0 <= q <= low ==> s[q] != blk
        invariant forall q :: high <= q < num ==> s[q] != blk
      {
        var mid := (low + high) / 2;
        if mid == low || mid == high { break; }
        if blk == list[mid] { assert s[mid] in s; return mid; }
        if blk < list[mid] {
          assert forall q :: mid <= q < num ==> s[mid] <= s[q];
          high := mid;
        } else {
          assert forall q :: 0 <= q <= mid ==> s[q] <= s[mid];
          low := mid;
        }
      }
      k := -1;
    }
  }
}
