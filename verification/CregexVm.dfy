/** The virtual machine (src/cregex_vm.c): two thread lists that are swapped at each position,
    stamps that stop an instruction from being entered twice at a position, and capture slots
    that are overwritten for the time of a recursive call. */
module CregexVm {
  import opened Wrappers
  import opened Cregex
  import opened CregexBacktrack

  /** The number of capture slots that are tracked. */
  function Width(nmatches: nat): nat
  {
    if nmatches <= MAX_MATCHES then nmatches else MAX_MATCHES
  }

  /** The subject in memory: its characters, its terminator, and one byte after it. */
  function ByteAt(s: string, past: char, sp: nat): char
  {
    if sp < |s| then s[sp] else if sp == |s| then NUL else past
  }

  /** A row of a table of capture slots. */
  ghost function Row(m: array2<Option<nat>>, row: nat, width: nat): (r: Slots)
    requires row < m.Length0 && width <= m.Length1
    reads m
    ensures |r| == width
    ensures forall k :: 0 <= k < width ==> r[k] == m[row, k]
  {
    seq(width, k requires 0 <= k < width reads m => m[row, k])
  }

  /** A list of threads. The stamps are indexed by instruction, the other fields by thread. */
  class ThreadList {
    var nthreads: nat
    const visited: array<nat>
    const pc: array<nat>
    const matches: array2<Option<nat>>

    ghost function Repr(): set<object>
    {
      {this, visited, pc, matches}
    }

    ghost predicate Valid(size: nat)
      reads this
    {
      && visited.Length == size && pc.Length == size
      && matches.Length0 == size && matches.Length1 == MAX_MATCHES
      && visited != pc
      && nthreads <= size
    }

    constructor (size: nat)
      ensures Valid(size) && nthreads == 0 && fresh(Repr())
      ensures forall q :: 0 <= q < size ==> visited[q] == 0
    {
      nthreads := 0;
      visited := new nat[size](_ => 0);
      pc := new nat[size](_ => 0);
      matches := new Option<nat>[size, MAX_MATCHES]((_, _) => None);
    }

    /** The instructions stamped for a position. */
    ghost function Seen(stamp: nat): (r: set<nat>)
      reads this, visited
      ensures forall q :: q in r <==> 0 <= q < visited.Length && visited[q] == stamp
    {
      set q: nat | q < visited.Length && visited[q] == stamp
    }

    ghost function Threads(size: nat, width: nat): (r: seq<Thread>)
      requires Valid(size) && width <= MAX_MATCHES
      reads this, pc, matches
      ensures |r| == nthreads
      ensures forall k :: 0 <= k < nthreads ==> r[k] == Thread(pc[k], Row(matches, k, width))
    {
      seq(nthreads, k requires 0 <= k < nthreads && Valid(size) reads this, pc, matches =>
        Thread(pc[k], Row(matches, k, width)))
    }
  }

  /** What vm_add_thread does to a list and to the caller's slots: it appends the threads of the
      closure of `pc`, in priority order, stamps what it goes through, and leaves the caller's slots
      as they were. `seen` and `threads` describe the list before the call. */
  twostate predicate Added(list: ThreadList, p: Program, c: (set<nat>, seq<Thread>), sp: nat,
                           m: array2<Option<nat>>, width: nat)
    requires old(list.Valid(|p|)) && width <= MAX_MATCHES
    reads list, list.visited, list.pc, list.matches, m
  {
    && list.Valid(|p|)
    && list.Seen(sp + 1) == c.0
    && list.Threads(|p|, width) == old(list.Threads(|p|, width)) + c.1
    && list.nthreads <= |list.Seen(sp + 1)|
    && (forall q :: 0 <= q < |p| ==> list.visited[q] == old(list.visited[q]) || list.visited[q] == sp + 1)
    && (forall i, j :: 0 <= i < m.Length0 && 0 <= j < m.Length1 ==> m[i, j] == old(m[i, j]))
  }

  lemma ClosureStep(p: Program, atBegin: bool, atEnd: bool, pc: nat, i: nat, slots: Slots, seen: set<nat>)
    requires ValidProgram(p) && pc < |p| && seen <= AllPcs(p)
    ensures
      var m := seen + {pc};
      Closure(p, atBegin, atEnd, pc, i, slots, seen) ==
        if pc in seen then (seen, []) else
        match p[pc]
        case Split(first, second) =>
          var r := Closure(p, atBegin, atEnd, first, i, slots, m);
          var q := Closure(p, atBegin, atEnd, second, i, slots, r.0);
          (q.0, r.1 + q.1)
        case Jump(target) => Closure(p, atBegin, atEnd, target, i, slots, m)
        case AssertBegin => if atBegin then Closure(p, atBegin, atEnd, pc + 1, i, slots, m) else (m, [])
        case AssertEnd => if atEnd then Closure(p, atBegin, atEnd, pc + 1, i, slots, m) else (m, [])
        case Save(k) => Closure(p, atBegin, atEnd, pc + 1, i, Store(slots, k, i), m)
        case _ => (m, [Thread(pc, slots)])
  {
  }

  /** vm_add_thread. The measure is the set of instructions not yet stamped for this position. */
  method AddThread(list: ThreadList, p: Program, pc: nat, s: string, past: char, sp: nat,
                   m: array2<Option<nat>>, row: nat, nmatches: nat)
    requires ValidProgram(p) && pc < |p| && list.Valid(|p|)
    requires m != list.matches && row < m.Length0 && Width(nmatches) <= m.Length1
    requires list.nthreads <= |list.Seen(sp + 1)|
    modifies list, list.visited, list.pc, list.matches, m
    ensures Added(list, p,
      Closure(p, sp == 0, ByteAt(s, past, sp) == NUL, pc, sp,
              old(Row(m, row, Width(nmatches))), old(list.Seen(sp + 1))),
      sp, m, Width(nmatches))
    decreases AllPcs(p) - list.Seen(sp + 1), 0
  {
    hide Closure;
    ghost var seen := list.Seen(sp + 1);
    if list.visited[pc] == sp + 1 {
      ClosureStep(p, sp == 0, ByteAt(s, past, sp) == NUL, pc, sp, Row(m, row, Width(nmatches)), seen);
      return;
    }
    list.visited[pc] := sp + 1;
    assert list.Seen(sp + 1) == seen + {pc};
    Enter(list, p, pc, s, past, sp, m, row, nmatches, seen);
  }

  /** The switch on the opcode, once the instruction has been stamped. */
  method Enter(list: ThreadList, p: Program, pc: nat, s: string, past: char, sp: nat,
               m: array2<Option<nat>>, row: nat, nmatches: nat, ghost seen: set<nat>)
    requires ValidProgram(p) && pc < |p| && list.Valid(|p|)
    requires m != list.matches && row < m.Length0 && Width(nmatches) <= m.Length1
    requires seen <= AllPcs(p) && pc !in seen && list.Seen(sp + 1) == seen + {pc} && list.nthreads <= |seen|
    modifies list, list.visited, list.pc, list.matches, m
    ensures Added(list, p,
      Closure(p, sp == 0, ByteAt(s, past, sp) == NUL, pc, sp, old(Row(m, row, Width(nmatches))), seen),
      sp, m, Width(nmatches))
    decreases AllPcs(p) - list.Seen(sp + 1), 2
  {
    hide Closure, Added;
    ClosureStep(p, sp == 0, ByteAt(s, past, sp) == NUL, pc, sp, Row(m, row, Width(nmatches)), seen);
    if p[pc].Split? {
      AddBoth(list, p, p[pc].first, p[pc].second, s, past, sp, m, row, nmatches);
    } else if p[pc].Jump? {
      AddThread(list, p, p[pc].target, s, past, sp, m, row, nmatches);
    } else if p[pc].AssertBegin? || p[pc].AssertEnd? {
      var holds := if p[pc].AssertBegin? then sp == 0 else ByteAt(s, past, sp) == NUL;
      if holds {
        AddThread(list, p, pc + 1, s, past, sp, m, row, nmatches);
      } else {
        AddedNothing(list, p, sp, m, Width(nmatches));
      }
    } else if p[pc].Save? {
      AddSaved(list, p, pc + 1, p[pc].slot, s, past, sp, m, row, nmatches);
    } else {
      SeenBound(p, seen, pc);
      Append(list, p, pc, sp, m, row, nmatches);
    }
  }

  ghost method AddedNothing(list: ThreadList, p: Program, sp: nat, m: array2<Option<nat>>, width: nat)
    requires list.Valid(|p|) && width <= MAX_MATCHES && list.nthreads <= |list.Seen(sp + 1)|
    ensures Added(list, p, (list.Seen(sp + 1), []), sp, m, width)
  {
  }

  /** The case of a split: the preferred branch first. */
  method AddBoth(list: ThreadList, p: Program, first: nat, second: nat, s: string, past: char, sp: nat,
                 m: array2<Option<nat>>, row: nat, nmatches: nat)
    requires ValidProgram(p) && first < |p| && second < |p| && list.Valid(|p|)
    requires m != list.matches && row < m.Length0 && Width(nmatches) <= m.Length1
    requires list.nthreads <= |list.Seen(sp + 1)|
    modifies list, list.visited, list.pc, list.matches, m
    ensures
      var atEnd, slots := ByteAt(s, past, sp) == NUL, old(Row(m, row, Width(nmatches)));
      var r := Closure(p, sp == 0, atEnd, first, sp, slots, old(list.Seen(sp + 1)));
      var q := Closure(p, sp == 0, atEnd, second, sp, slots, r.0);
      Added(list, p, (q.0, r.1 + q.1), sp, m, Width(nmatches))
    decreases AllPcs(p) - list.Seen(sp + 1), 1
  {
    hide Closure;
    ghost var slots := Row(m, row, Width(nmatches));
    AddThread(list, p, first, s, past, sp, m, row, nmatches);
    assert Row(m, row, Width(nmatches)) == slots;
    AddThread(list, p, second, s, past, sp, m, row, nmatches);
  }

  /** The case of a save: the slot holds the position for the time of the call. */
  method AddSaved(list: ThreadList, p: Program, pc: nat, k: nat, s: string, past: char, sp: nat,
                  m: array2<Option<nat>>, row: nat, nmatches: nat)
    requires ValidProgram(p) && pc < |p| && list.Valid(|p|)
    requires m != list.matches && row < m.Length0 && Width(nmatches) <= m.Length1
    requires list.nthreads <= |list.Seen(sp + 1)|
    modifies list, list.visited, list.pc, list.matches, m
    ensures Added(list, p,
      Closure(p, sp == 0, ByteAt(s, past, sp) == NUL, pc, sp,
              Store(old(Row(m, row, Width(nmatches))), k, sp), old(list.Seen(sp + 1))),
      sp, m, Width(nmatches))
    decreases AllPcs(p) - list.Seen(sp + 1), 1
  {
    hide Closure, Row;
    if k < nmatches && k < MAX_MATCHES {
      ghost var slots := Row(m, row, Width(nmatches));
      var saved := m[row, k];
      m[row, k] := Some(sp);
      assert Row(m, row, Width(nmatches)) == Store(slots, k, sp);
      AddThread(list, p, pc, s, past, sp, m, row, nmatches);
      m[row, k] := saved;
    } else {
      AddThread(list, p, pc, s, past, sp, m, row, nmatches);
    }
  }

  /** The case of a thread that has to wait for a character, or has matched. */
  method Append(list: ThreadList, p: Program, pc: nat, sp: nat, m: array2<Option<nat>>, row: nat, nmatches: nat)
    requires list.Valid(|p|) && list.nthreads < |p| && list.nthreads < |list.Seen(sp + 1)|
    requires m != list.matches && row < m.Length0 && Width(nmatches) <= m.Length1
    modifies list, list.pc, list.matches
    ensures Added(list, p, (old(list.Seen(sp + 1)), [Thread(pc, old(Row(m, row, Width(nmatches))))]), sp, m,
                  Width(nmatches))
  {
    ghost var width := Width(nmatches);
    ghost var threads := list.Threads(|p|, width);
    list.pc[list.nthreads] := pc;
    CopySlots(list.matches, list.nthreads, m, row, Width(nmatches));
    list.nthreads := list.nthreads + 1;
    forall k | 0 <= k < |threads| ensures list.Threads(|p|, width)[k] == threads[k] {
      assert Row(list.matches, k, width) == old(Row(list.matches, k, width));
    }
    assert Row(m, row, width) == old(Row(m, row, width));
    assert list.Threads(|p|, width) == threads + [Thread(pc, Row(m, row, width))];
  }

  /** memcpy of the tracked slots from one row to another. */
  method CopySlots(dst: array2<Option<nat>>, i: nat, src: array2<Option<nat>>, row: nat, width: nat)
    requires dst != src && i < dst.Length0 && row < src.Length0 && width <= dst.Length1 && width <= src.Length1
    modifies dst
    ensures Row(dst, i, width) == Row(src, row, width)
    ensures forall r, c :: 0 <= r < dst.Length0 && 0 <= c < dst.Length1 && (r != i || c >= width) ==>
      dst[r, c] == old(dst[r, c])
  {
    for k := 0 to width
      invariant forall c :: 0 <= c < k ==> dst[i, c] == src[row, c]
      invariant forall r, c :: 0 <= r < dst.Length0 && 0 <= c < dst.Length1 && (r != i || c >= k) ==>
        dst[r, c] == old(dst[r, c])
    {
      dst[i, k] := src[row, k];
    }
  }

  /** A list never holds more threads than there are instructions. */
  lemma SeenBound(p: Program, seen: set<nat>, pc: nat)
    requires seen <= AllPcs(p) && pc < |p| && pc !in seen
    ensures |seen| < |p|
  {
    AllPcsSize(p);
    assert seen + {pc} <= AllPcs(p);
    SubsetSize(seen + {pc}, AllPcs(p));
  }

  lemma {:induction false} AllPcsSize(p: Program)
    ensures |AllPcs(p)| == |p|
  {
    if p != [] {
      var n := |p| - 1;
      AllPcsSize(p[..n]);
      assert AllPcs(p) == AllPcs(p[..n]) + {n};
    }
  }

  lemma {:induction false} SubsetSize(a: set<nat>, b: set<nat>)
    requires a <= b
    ensures |a| <= |b|
  {
    if a != {} {
      var x :| x in a;
      SubsetSize(a - {x}, b - {x});
    }
  }

  // ----- One position of the main loop -----

  /** The threads that wait at the next position once a list without match instructions has been
      run on the character `c`, and the instructions stamped there. */
  function Frontier(p: Program, c: char, atEnd: bool, ts: seq<Thread>, i: nat, width: nat): (r: (set<nat>, seq<Thread>))
    requires ValidProgram(p) && Runnable(p, width, ts) && c as int < 128
    requires forall k :: 0 <= k < |ts| ==> !p[ts[k].pc].Match?
    ensures r.0 <= AllPcs(p) && Runnable(p, width, r.1)
  {
    if ts == [] then ({}, [])
    else
      var n := |ts| - 1;
      var r := Frontier(p, c, atEnd, ts[..n], i, width);
      var t := ts[n];
      if Accepts(p[t.pc], c) then
        var q := Closure(p, false, atEnd, t.pc + 1, i + 1, t.slots, r.0);
        (q.0, r.1 + q.1)
      else r
  }

  function FreshAfter(s: string, i: nat): (r: Memo)
    requires i <= |s|
    ensures |r| == |s| - i
  {
    seq(|s| - i, _ => {})
  }

  /** Running a list through the backtracker amounts to running its frontier. */
  lemma {:induction false} FrontierRuns(p: Program, s: string, ts: seq<Thread>, i: nat, width: nat)
    requires ValidProgram(p) && SevenBit(s) && Runnable(p, width, ts) && i < |s|
    requires forall k :: 0 <= k < |ts| ==> !p[ts[k].pc].Match?
    ensures Layered(RunThreads(p, s, ts, i, width, FreshAfter(s, i)),
                    Frontier(p, s[i], i + 1 == |s|, ts, i, width),
                    RunThreads(p, s, Frontier(p, s[i], i + 1 == |s|, ts, i, width).1, i + 1, width,
                               FreshAfter(s, i + 1)))
  {
    hide Backtrack, Closure, Accepts;
    if ts == [] {
      assert FreshAfter(s, i) == [{}] + FreshAfter(s, i + 1);
    } else {
      var n := |ts| - 1;
      FrontierRuns(p, s, ts[..n], i, width);
      assert ts == ts[..n] + [ts[n]];
      RunThreadsAppend(p, s, ts[..n], [ts[n]], i, width, FreshAfter(s, i));
      LastThreadRuns(p, s, ts, i, width);
    }
  }

  lemma LastThreadRuns(p: Program, s: string, ts: seq<Thread>, i: nat, width: nat)
    requires ValidProgram(p) && SevenBit(s) && Runnable(p, width, ts) && i < |s| && ts != []
    requires forall k :: 0 <= k < |ts| ==> !p[ts[k].pc].Match?
    requires
      var f := Frontier(p, s[i], i + 1 == |s|, ts[..|ts| - 1], i, width);
      Layered(RunThreads(p, s, ts[..|ts| - 1], i, width, FreshAfter(s, i)), f,
              RunThreads(p, s, f.1, i + 1, width, FreshAfter(s, i + 1)))
    requires
      var r := RunThreads(p, s, ts[..|ts| - 1], i, width, FreshAfter(s, i));
      RunThreads(p, s, ts, i, width, FreshAfter(s, i)) ==
        if r.found.Some? then r else RunThreads(p, s, [ts[|ts| - 1]], i, width, r.memo)
    ensures Layered(RunThreads(p, s, ts, i, width, FreshAfter(s, i)),
                    Frontier(p, s[i], i + 1 == |s|, ts, i, width),
                    RunThreads(p, s, Frontier(p, s[i], i + 1 == |s|, ts, i, width).1, i + 1, width,
                               FreshAfter(s, i + 1)))
  {
    hide Backtrack, Closure, Accepts, RunThreads;
    var t := ts[|ts| - 1];
    var f := Frontier(p, s[i], i + 1 == |s|, ts[..|ts| - 1], i, width);
    var r := RunThreads(p, s, ts[..|ts| - 1], i, width, FreshAfter(s, i));
    if r.found.None? { OneThread(p, s, t, i, width, r.memo); }
    if Accepts(p[t.pc], s[i]) {
      var q := Closure(p, false, i + 1 == |s|, t.pc + 1, i + 1, t.slots, f.0);
      RunThreadsAppend(p, s, f.1, q.1, i + 1, width, FreshAfter(s, i + 1));
      if r.found.None? {
        assert r.memo[0] == f.0 && r.memo[1..] == RunThreads(p, s, f.1, i + 1, width, FreshAfter(s, i + 1)).memo;
        LayeredBacktrack(p, s, t.pc + 1, i + 1, t.slots, r.memo);
      }
    }
  }

  /** A list of one thread that has not matched. */
  lemma OneThread(p: Program, s: string, t: Thread, i: nat, width: nat, memo: Memo)
    requires ValidProgram(p) && SevenBit(s) && Runnable(p, width, [t]) && i < |s| && !p[t.pc].Match?
    requires |memo| == |s| - i && ValidMemo(p, memo)
    ensures RunThreads(p, s, [t], i, width, memo) ==
              if Accepts(p[t.pc], s[i]) then Backtrack(p, s, t.pc + 1, i + 1, t.slots, memo) else Outcome(memo, None)
  {
    hide Backtrack, Accepts;
    assert [t][1..] == [];
  }

  /** The first thread of a list that has matched, or the length of the list. */
  function FirstMatch(p: Program, ts: seq<Thread>, k: nat): (r: nat)
    requires k <= |ts| && forall j :: 0 <= j < |ts| ==> ts[j].pc < |p|
    ensures k <= r <= |ts| && (r < |ts| ==> p[ts[r].pc].Match?)
    ensures forall j :: k <= j < r ==> !p[ts[j].pc].Match?
    decreases |ts| - k
  {
    if k == |ts| || p[ts[k].pc].Match? then k else FirstMatch(p, ts, k + 1)
  }

  /** A thread whose character was accepted goes on at the next position. */
  method MoveThread(current: ThreadList, next: ThreadList, p: Program, s: string, past: char, sp: nat, i: nat,
                    nmatches: nat)
    requires ValidProgram(p) && current.Valid(|p|) && next.Valid(|p|) && current.Repr() !! next.Repr()
    requires i < current.nthreads && current.pc[i] + 1 < |p|
    requires next.nthreads <= |next.Seen(sp + 2)|
    modifies current.matches, next, next.visited, next.pc, next.matches
    ensures current.Valid(|p|) && next.Valid(|p|)
    ensures current.Threads(|p|, Width(nmatches)) == old(current.Threads(|p|, Width(nmatches)))
    ensures
      var t := old(current.Threads(|p|, Width(nmatches)))[i];
      var q := Closure(p, false, ByteAt(s, past, sp + 1) == NUL, t.pc + 1, sp + 1, t.slots, old(next.Seen(sp + 2)));
      && next.Threads(|p|, Width(nmatches)) == old(next.Threads(|p|, Width(nmatches))) + q.1
      && next.Seen(sp + 2) == q.0
    ensures next.nthreads <= |next.Seen(sp + 2)|
    ensures forall q :: 0 <= q < |p| ==> next.visited[q] == old(next.visited[q]) || next.visited[q] == sp + 2
  {
    hide Closure;
    AddThread(next, p, current.pc[i] + 1, s, past, sp + 1, current.matches, i, nmatches);
    forall k | 0 <= k < current.nthreads
      ensures current.Threads(|p|, Width(nmatches))[k] == old(current.Threads(|p|, Width(nmatches)))[k]
    {
      assert Row(current.matches, k, Width(nmatches)) == old(Row(current.matches, k, Width(nmatches)));
    }
  }

  /** A thread that has not matched: it moves on if its instruction accepts the character. */
  method MoveOn(current: ThreadList, next: ThreadList, p: Program, s: string, past: char, sp: nat, i: nat,
                nmatches: nat, ghost ts: seq<Thread>, ghost f: (set<nat>, seq<Thread>))
    returns (ghost g: (set<nat>, seq<Thread>))
    requires ValidProgram(p) && SevenBit(s) && sp <= |s| && Runnable(p, Width(nmatches), ts)
    requires current.Valid(|p|) && next.Valid(|p|) && current.Repr() !! next.Repr()
    requires i < current.nthreads == |ts| && current.Threads(|p|, Width(nmatches)) == ts
    requires i < FirstMatch(p, ts, 0)
    requires f == Frontier(p, ByteAt(s, past, sp), ByteAt(s, past, sp + 1) == NUL, ts[..i], sp, Width(nmatches))
    requires next.Threads(|p|, Width(nmatches)) == f.1 && next.Seen(sp + 2) == f.0
    requires next.nthreads <= |next.Seen(sp + 2)|
    modifies current.matches, next, next.visited, next.pc, next.matches
    ensures current.Valid(|p|) && next.Valid(|p|) && current.Threads(|p|, Width(nmatches)) == ts
    ensures g == Frontier(p, ByteAt(s, past, sp), ByteAt(s, past, sp + 1) == NUL, ts[..i + 1], sp, Width(nmatches))
    ensures next.Threads(|p|, Width(nmatches)) == g.1 && next.Seen(sp + 2) == g.0
    ensures next.nthreads <= |next.Seen(sp + 2)|
    ensures forall q :: 0 <= q < |p| ==> next.visited[q] == old(next.visited[q]) || next.visited[q] == sp + 2
  {
    hide Frontier, Closure, Accepts, FirstMatch, IsConsuming, Row;
    assert ts[i] == Thread(current.pc[i], Row(current.matches, i, Width(nmatches)));
    g := FrontierMore(p, s, past, sp, ts, i, f, Width(nmatches));
    if Accepts(p[current.pc[i]], ByteAt(s, past, sp)) {
      MoveThread(current, next, p, s, past, sp, i, nmatches);
    }
  }

  /** The loop over the threads of one position: the threads before the first match move on to the
      next list, and the ones after it are cut off. */
  method RunPosition(current: ThreadList, next: ThreadList, p: Program, s: string, past: char, sp: nat,
                     matches: array2<Option<nat>>, nmatches: nat) returns (matchedHere: bool)
    requires ValidProgram(p) && SevenBit(s) && sp <= |s|
    requires current.Valid(|p|) && next.Valid(|p|) && current.Repr() !! next.Repr()
    requires matches.Length0 == 1 && matches.Length1 == nmatches && matches !in current.Repr() + next.Repr()
    requires Runnable(p, Width(nmatches), current.Threads(|p|, Width(nmatches)))
    requires next.nthreads == 0 && next.Seen(sp + 2) == {}
    modifies current, current.matches, next, next.visited, next.pc, next.matches, matches
    ensures current.Valid(|p|) && next.Valid(|p|)
    ensures
      var ts := old(current.Threads(|p|, Width(nmatches)));
      var k := FirstMatch(p, ts, 0);
      && next.Threads(|p|, Width(nmatches)) ==
           Frontier(p, ByteAt(s, past, sp), ByteAt(s, past, sp + 1) == NUL, ts[..k], sp, Width(nmatches)).1
      && matchedHere == (k < |ts|)
      && Row(matches, 0, Width(nmatches)) == if k < |ts| then ts[k].slots else old(Row(matches, 0, Width(nmatches)))
    ensures forall c :: Width(nmatches) <= c < nmatches ==> matches[0, c] == old(matches[0, c])
    ensures forall q :: 0 <= q < |p| ==> next.visited[q] == old(next.visited[q]) || next.visited[q] == sp + 2
    ensures forall q :: 0 <= q < |p| ==> current.visited[q] == old(current.visited[q])
  {
    hide Frontier, Closure, Accepts, FirstMatch, IsConsuming, Row;
    var i := 0;
    matchedHere := false;
    ghost var width := Width(nmatches);
    ghost var ts := current.Threads(|p|, width);
    ghost var first := FirstMatch(p, ts, 0);
    ghost var f := FrontierStart(p, s, past, sp, ts, width);
    while i < current.nthreads
      invariant current.Valid(|p|) && next.Valid(|p|)
      invariant !matchedHere ==> current.nthreads == |ts| && current.Threads(|p|, width) == ts && i <= first
      invariant !matchedHere ==> Row(matches, 0, width) == old(Row(matches, 0, width))
      invariant matchedHere ==> first < |ts| && current.nthreads == 0 && Row(matches, 0, width) == ts[first].slots
      invariant f == Frontier(p, ByteAt(s, past, sp), ByteAt(s, past, sp + 1) == NUL,
                              ts[..if matchedHere then first else i], sp, width)
      invariant next.Threads(|p|, width) == f.1 && next.Seen(sp + 2) == f.0 && next.nthreads <= |next.Seen(sp + 2)|
      invariant forall c :: width <= c < nmatches ==> matches[0, c] == old(matches[0, c])
      invariant forall q :: 0 <= q < |p| ==> next.visited[q] == old(next.visited[q]) || next.visited[q] == sp + 2
    {
      var pc := current.pc[i];
      assert ts[i] == Thread(pc, Row(current.matches, i, width));
      if p[pc].Match? {
        matchedHere := true;
        current.nthreads := 0;
        CopySlots(matches, 0, current.matches, i, Width(nmatches));
      } else {
        f := MoveOn(current, next, p, s, past, sp, i, nmatches, ts, f);
      }
      i := i + 1;
    }
  }

  lemma FrontierStart(p: Program, s: string, past: char, sp: nat, ts: seq<Thread>, width: nat)
    returns (f: (set<nat>, seq<Thread>))
    requires ValidProgram(p) && SevenBit(s) && sp <= |s| && Runnable(p, width, ts)
    ensures f == Frontier(p, ByteAt(s, past, sp), ByteAt(s, past, sp + 1) == NUL, ts[..0], sp, width)
    ensures f == ({}, [])
  {
    f := ({}, []);
  }

  lemma FrontierMore(
    p: Program, s: string, past: char, sp: nat, ts: seq<Thread>, i: nat, f: (set<nat>, seq<Thread>), width: nat)
    returns (g: (set<nat>, seq<Thread>))
    requires ValidProgram(p) && SevenBit(s) && sp <= |s| && Runnable(p, width, ts) && i < |ts|
    requires forall k :: 0 <= k <= i ==> !p[ts[k].pc].Match?
    requires f == Frontier(p, ByteAt(s, past, sp), ByteAt(s, past, sp + 1) == NUL, ts[..i], sp, width)
    ensures g == Frontier(p, ByteAt(s, past, sp), ByteAt(s, past, sp + 1) == NUL, ts[..i + 1], sp, width)
    ensures f.0 <= AllPcs(p)
    ensures g ==
      if Accepts(p[ts[i].pc], ByteAt(s, past, sp)) then
        var q := Closure(p, false, ByteAt(s, past, sp + 1) == NUL, ts[i].pc + 1, sp + 1, ts[i].slots, f.0);
        (q.0, f.1 + q.1)
      else f
  {
    assert ts[..i + 1][..i] == ts[..i];
    g := Frontier(p, ByteAt(s, past, sp), ByteAt(s, past, sp + 1) == NUL, ts[..i + 1], sp, width);
  }

  // ----- The whole run -----

  /** At the terminator no thread can consume a character. */
  lemma {:induction false} RunAtEnd(p: Program, s: string, ts: seq<Thread>, width: nat)
    requires ValidProgram(p) && SevenBit(s) && Runnable(p, width, ts)
    requires forall k :: 0 <= k < |ts| ==> !p[ts[k].pc].Match?
    ensures RunThreads(p, s, ts, |s|, width, []).found.None?
  {
    if ts != [] {
      RunAtEnd(p, s, ts[1..], width);
    }
  }

  /** What is left of a match `late` found at or after the next position, and of the threads of this
      position of which the k-th is the first to have matched. */
  function Best(late: Option<Slots>, ts: seq<Thread>, k: nat): Option<Slots>
  {
    if late.Some? then late else if k < |ts| then Some(ts[k].slots) else None
  }

  /** A match by a thread that moves on is preferred to the match of a thread after it. */
  lemma PositionAnswer(p: Program, s: string, ts: seq<Thread>, i: nat, width: nat)
    requires ValidProgram(p) && SevenBit(s) && Runnable(p, width, ts) && i <= |s|
    ensures
      var k := FirstMatch(p, ts, 0);
      RunThreads(p, s, ts, i, width, FreshAfter(s, i)).found ==
        if i == |s| then Best(None, ts, k)
        else Best(RunThreads(p, s, Frontier(p, s[i], i + 1 == |s|, ts[..k], i, width).1, i + 1, width,
                             FreshAfter(s, i + 1)).found, ts, k)
  {
    hide Backtrack, Frontier, Closure;
    var k := FirstMatch(p, ts, 0);
    var r := RunThreads(p, s, ts[..k], i, width, FreshAfter(s, i));
    assert ts == ts[..k] + ts[k..];
    RunThreadsAppend(p, s, ts[..k], ts[k..], i, width, FreshAfter(s, i));
    if i == |s| {
      RunAtEnd(p, s, ts[..k], width);
      assert FreshAfter(s, i) == [];
    } else {
      FrontierRuns(p, s, ts[..k], i, width);
    }
    assert k < |ts| ==> ts[k..][0] == ts[k];
  }

  /** The answer of the whole run, from the matches recorded so far and the current threads. */
  ghost predicate Pending(answer: Option<Slots>, matched: bool, slots: Slots, late: Option<Slots>)
  {
    && answer == (if late.Some? then late else if matched then Some(slots) else None)
    && (!matched ==> slots == Blank(|slots|))
  }

  method ClearSlots(m: array2<Option<nat>>)
    modifies m
    ensures forall i, j :: 0 <= i < m.Length0 && 0 <= j < m.Length1 ==> m[i, j] == None
  {
    forall i, j | 0 <= i < m.Length0 && 0 <= j < m.Length1 {
      m[i, j] := None;
    }
  }

  /** The first call of vm_add_thread: the threads at the start of the subject. */
  method StartThreads(current: ThreadList, p: Program, s: string, past: char, matches: array2<Option<nat>>,
                      nmatches: nat)
    requires ValidProgram(p) && SevenBit(s) && current.Valid(|p|) && current.nthreads == 0
    requires forall q :: 0 <= q < |p| ==> current.visited[q] == 0
    requires matches.Length0 == 1 && matches.Length1 == nmatches && matches != current.matches
    requires forall j :: 0 <= j < nmatches ==> matches[0, j] == None
    modifies current, current.visited, current.pc, current.matches, matches
    ensures current.Valid(|p|) && Runnable(p, Width(nmatches), current.Threads(|p|, Width(nmatches)))
    ensures Backtrack(p, s, 0, 0, Blank(Width(nmatches)), FreshMemo(s)).found ==
      Late(p, s, current.Threads(|p|, Width(nmatches)), 0, Width(nmatches))
    ensures forall q :: 0 <= q < |p| ==> current.visited[q] <= 1
    ensures forall j :: 0 <= j < nmatches ==> matches[0, j] == None
  {
    hide Backtrack, RunThreads, Closure;
    ghost var width := Width(nmatches);
    assert current.Seen(1) == {} && current.Threads(|p|, width) == [];
    assert Row(matches, 0, width) == Blank(width);
    AddThread(current, p, 0, s, past, 0, matches, 0, nmatches);
    LayeredBacktrack(p, s, 0, 0, Blank(width), FreshMemo(s));
    assert FreshMemo(s)[1..] == FreshAfter(s, 0) && FreshMemo(s)[0] == {};
    assert (ByteAt(s, past, 0) == NUL) == (0 == |s|);
    assert [] + Closure(p, true, 0 == |s|, 0, 0, Blank(width), {}).1 ==
      Closure(p, true, 0 == |s|, 0, 0, Blank(width), {}).1;
  }

  /** What the current threads and later ones can still find. */
  ghost function Late(p: Program, s: string, ts: seq<Thread>, i: nat, width: nat): Option<Slots>
    requires ValidProgram(p) && SevenBit(s) && Runnable(p, width, ts)
  {
    if i <= |s| then RunThreads(p, s, ts, i, width, FreshAfter(s, i)).found else None
  }

  /** One round of the main loop keeps the answer of the whole run. */
  method NextPosition(current: ThreadList, next: ThreadList, p: Program, s: string, past: char, sp: nat,
                      matches: array2<Option<nat>>, nmatches: nat, matched: int, ghost answer: Option<Slots>)
    returns (matched': int)
    requires ValidProgram(p) && SevenBit(s) && sp <= |s| && (matched == 0 || matched == 1)
    requires current.Valid(|p|) && next.Valid(|p|) && current.Repr() !! next.Repr()
    requires matches.Length0 == 1 && matches.Length1 == nmatches && matches !in current.Repr() + next.Repr()
    requires Runnable(p, Width(nmatches), current.Threads(|p|, Width(nmatches)))
    requires next.nthreads == 0
    requires forall q :: 0 <= q < |p| ==> current.visited[q] <= sp + 1 && next.visited[q] <= sp + 1
    requires Pending(answer, matched == 1, Row(matches, 0, Width(nmatches)),
                     Late(p, s, current.Threads(|p|, Width(nmatches)), sp, Width(nmatches)))
    modifies current, current.matches, next, next.visited, next.pc, next.matches, matches
    ensures current.Valid(|p|) && next.Valid(|p|) && (matched' == 0 || matched' == 1)
    ensures Runnable(p, Width(nmatches), next.Threads(|p|, Width(nmatches)))
    ensures forall q :: 0 <= q < |p| ==> current.visited[q] <= sp + 2 && next.visited[q] <= sp + 2
    ensures Pending(answer, matched' == 1, Row(matches, 0, Width(nmatches)),
                    Late(p, s, next.Threads(|p|, Width(nmatches)), sp + 1, Width(nmatches)))
    ensures forall j :: Width(nmatches) <= j < nmatches ==> matches[0, j] == old(matches[0, j])
  {
    hide RunThreads, Frontier, FirstMatch, Row;
    PositionAnswer(p, s, current.Threads(|p|, Width(nmatches)), sp, Width(nmatches));
    var here := RunPosition(current, next, p, s, past, sp, matches, nmatches);
    matched' := if here then 1 else matched;
  }

  /** vm_run_with_threads: the machine gives the backtracker's answer. Slots that are not tracked,
      and all slots when there is no match, are left empty. */
  method Run(p: Program, s: string, past: char, matches: array2<Option<nat>>, nmatches: nat) returns (matched: int)
    requires ValidProgram(p) && SevenBit(s)
    requires matches.Length0 == 1 && matches.Length1 == nmatches
    modifies matches
    ensures
      var answer := Backtrack(p, s, 0, 0, Blank(Width(nmatches)), FreshMemo(s)).found;
      && matched == (if answer.Some? then 1 else 0)
      && Row(matches, 0, Width(nmatches)) == (if answer.Some? then answer.value else Blank(Width(nmatches)))
    ensures forall j :: Width(nmatches) <= j < nmatches ==> matches[0, j] == None
  {
    hide Backtrack, Runnable, Row, Late, Pending, ThreadList.Threads, ThreadList.Seen;
    ghost var width := Width(nmatches);
    ghost var answer := Backtrack(p, s, 0, 0, Blank(width), FreshMemo(s)).found;
    var current := new ThreadList(|p|);
    var next := new ThreadList(|p|);
    matched := 0;
    ClearSlots(matches);
    StartThreads(current, p, s, past, matches, nmatches);
    StartPending(answer, Row(matches, 0, width));
    var sp := 0;
    while true
      invariant sp <= |s| && (matched == 0 || matched == 1)
      invariant current.Valid(|p|) && next.Valid(|p|) && current.Repr() !! next.Repr()
      invariant fresh(current.Repr()) && fresh(next.Repr())
      invariant Runnable(p, width, current.Threads(|p|, width)) && next.nthreads == 0
      invariant forall q :: 0 <= q < |p| ==> current.visited[q] <= sp + 1 && next.visited[q] <= sp + 1
      invariant Pending(answer, matched == 1, Row(matches, 0, width),
                        Late(p, s, current.Threads(|p|, width), sp, width))
      invariant forall j :: width <= j < nmatches ==> matches[0, j] == None
      decreases |s| - sp
    {
      matched := NextPosition(current, next, p, s, past, sp, matches, nmatches, matched, answer);
      current, next := next, current;
      next.nthreads := 0;
      if current.nthreads == 0 || sp == |s| {
        NothingLate(p, s, current.Threads(|p|, width), sp + 1, width);
        EndPending(answer, matched == 1, Row(matches, 0, width));
        break;
      }
      sp := sp + 1;
    }
  }

  lemma StartPending(answer: Option<Slots>, slots: Slots)
    requires forall k :: 0 <= k < |slots| ==> slots[k] == None
    ensures Pending(answer, false, slots, answer)
  {
    assert slots == Blank(|slots|);
  }

  lemma EndPending(answer: Option<Slots>, matched: bool, slots: Slots)
    requires Pending(answer, matched, slots, None)
    ensures answer.Some? == matched && slots == if matched then answer.value else Blank(|slots|)
  {
  }

  lemma NothingLate(p: Program, s: string, ts: seq<Thread>, i: nat, width: nat)
    requires ValidProgram(p) && SevenBit(s) && Runnable(p, width, ts) && (ts == [] || i == |s| + 1)
    ensures Late(p, s, ts, i, width).None?
  {
  }
}
