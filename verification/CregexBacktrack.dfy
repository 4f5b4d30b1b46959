/** The reference machine: a depth-first backtracker that gives up on an (instruction,
    position) pair it has already been at, and the proof that exploring position by
    position, as the virtual machine does, finds the same first match. */
module CregexBacktrack {
  import opened Wrappers
  import opened Cregex

  /** A capture slot holds an offset in the subject, or nothing (a null pointer). */
  type Slots = seq<Option<nat>>

  /** `memo[k]` is the set of instructions already tried at the k-th position from here on. */
  type Memo = seq<set<nat>>

  datatype Outcome = Outcome(memo: Memo, found: Option<Slots>)

  datatype Thread = Thread(pc: nat, slots: Slots)

  /** Every instruction that can be followed by another one stays inside the program. */
  predicate ValidProgram(p: Program)
  {
    && |p| > 0
    && forall pc :: 0 <= pc < |p| ==> ValidInstr(p[pc], pc, |p|)
  }

  predicate ValidInstr(ins: Instr, pc: nat, size: nat)
  {
    match ins
    case Match => true
    case Split(first, second) => first < size && second < size
    case Jump(target) => target < size
    case _ => pc + 1 < size
  }

  predicate IsConsuming(ins: Instr)
  {
    ins.Char? || ins.Any? || ins.Class? || ins.ClassNegated?
  }

  /** The test the machine makes on the character under the string pointer, NUL included. */
  predicate Accepts(ins: Instr, c: char)
    requires IsConsuming(ins) && c as int < 128
  {
    match ins
    case Char(ch) => c == ch
    case Any => c != NUL
    case Class(k) => ClassContains(k, c as int)
    case ClassNegated(k) => !ClassContains(k, c as int)
  }

  function AllPcs(p: Program): set<nat>
  {
    set pc: nat {:trigger p[pc]} | pc < |p|
  }

  ghost predicate ValidMemo(p: Program, memo: Memo)
  {
    forall k :: 0 <= k < |memo| ==> memo[k] <= AllPcs(p)
  }

  function Store(slots: Slots, k: nat, i: nat): (r: Slots)
    ensures |r| == |slots|
  {
    if k < |slots| then slots[k := Some(i)] else slots
  }

  /** Slots before anything is captured. */
  function Blank(width: nat): Slots
  {
    seq(width, _ => None)
  }

  /** The memo before anything is tried. */
  function FreshMemo(s: string): Memo
  {
    seq(|s| + 1, _ => {})
  }

  /** The first match reachable from instruction `pc` at position `i`, in priority order. */
  function Backtrack(p: Program, s: string, pc: nat, i: nat, slots: Slots, memo: Memo): (r: Outcome)
    requires ValidProgram(p) && SevenBit(s) && pc < |p|
    requires i <= |s| && |memo| == |s| + 1 - i && ValidMemo(p, memo)
    ensures |r.memo| == |memo| && ValidMemo(p, r.memo)
    ensures memo[0] <= r.memo[0] && pc in r.memo[0]
    ensures r.found.Some? ==> |r.found.value| == |slots|
    decreases |memo|, AllPcs(p) - memo[0]
  {
    if pc in memo[0] then
      Outcome(memo, None)
    else
      var m := memo[0 := memo[0] + {pc}];
      match p[pc]
      case Match => Outcome(m, Some(slots))
      case Split(first, second) =>
        var r := Backtrack(p, s, first, i, slots, m);
        if r.found.Some? then r else Backtrack(p, s, second, i, slots, r.memo)
      case Jump(target) => Backtrack(p, s, target, i, slots, m)
      case AssertBegin => if i == 0 then Backtrack(p, s, pc + 1, i, slots, m) else Outcome(m, None)
      case AssertEnd => if i == |s| then Backtrack(p, s, pc + 1, i, slots, m) else Outcome(m, None)
      case Save(k) => Backtrack(p, s, pc + 1, i, Store(slots, k, i), m)
      case _ =>
        if i < |s| && Accepts(p[pc], s[i]) then
          var r := Backtrack(p, s, pc + 1, i + 1, slots, m[1..]);
          Outcome([m[0]] + r.memo, r.found)
        else
          Outcome(m, None)
  }

  /** The threads that one call of vm_add_thread appends, and the instructions it stamps.
      `atBegin` and `atEnd` are the truth of the two assertions at this position. */
  function Closure(p: Program, atBegin: bool, atEnd: bool, pc: nat, i: nat, slots: Slots, seen: set<nat>)
    : (r: (set<nat>, seq<Thread>))
    requires ValidProgram(p) && pc < |p| && seen <= AllPcs(p)
    ensures seen + {pc} <= r.0 <= AllPcs(p)
    ensures Runnable(p, |slots|, r.1)
    decreases AllPcs(p) - seen
  {
    if pc in seen then
      (seen, [])
    else
      var m := seen + {pc};
      match p[pc]
      case Split(first, second) =>
        var r := Closure(p, atBegin, atEnd, first, i, slots, m);
        var q := Closure(p, atBegin, atEnd, second, i, slots, r.0);
        (q.0, r.1 + q.1)
      case Jump(target) => Closure(p, atBegin, atEnd, target, i, slots, m)
      case AssertBegin => if atBegin then Closure(p, atBegin, atEnd, pc + 1, i, slots, m) else (m, [])
      case AssertEnd => if atEnd then Closure(p, atBegin, atEnd, pc + 1, i, slots, m) else (m, [])
      case Save(k) => Closure(p, atBegin, atEnd, pc + 1, i, Store(slots, k, i), m)
      case _ => (m, [Thread(pc, slots)])
  }

  /** Threads wait only at character or match instructions, so the machine never aborts. */
  predicate Runnable(p: Program, width: nat, ts: seq<Thread>)
  {
    forall k :: 0 <= k < |ts| ==>
      && ts[k].pc < |p|
      && |ts[k].slots| == width
      && (p[ts[k].pc].Match? || IsConsuming(p[ts[k].pc]))
  }

  /** Backtracking from each thread of a list in turn; `later` is the memo of the positions
      after `i`. */
  function RunThreads(p: Program, s: string, ts: seq<Thread>, i: nat, width: nat, later: Memo): (r: Outcome)
    requires ValidProgram(p) && SevenBit(s) && Runnable(p, width, ts)
    requires i <= |s| && |later| == |s| - i && ValidMemo(p, later)
    ensures |r.memo| == |later| && ValidMemo(p, r.memo)
    ensures r.found.Some? ==> |r.found.value| == width
  {
    if ts == [] then
      Outcome(later, None)
    else
      var t := ts[0];
      if p[t.pc].Match? then
        Outcome(later, Some(t.slots))
      else if i < |s| && Accepts(p[t.pc], s[i]) then
        var r := Backtrack(p, s, t.pc + 1, i + 1, t.slots, later);
        if r.found.Some? then r else RunThreads(p, s, ts[1..], i, width, r.memo)
      else
        RunThreads(p, s, ts[1..], i, width, later)
  }

  lemma {:induction false} RunThreadsAppend(
    p: Program, s: string, ts: seq<Thread>, us: seq<Thread>, i: nat, width: nat, later: Memo)
    requires ValidProgram(p) && SevenBit(s) && Runnable(p, width, ts) && Runnable(p, width, us)
    requires i <= |s| && |later| == |s| - i && ValidMemo(p, later)
    ensures
      var r := RunThreads(p, s, ts, i, width, later);
      RunThreads(p, s, ts + us, i, width, later) ==
        if r.found.Some? then r else RunThreads(p, s, us, i, width, r.memo)
  {
    if ts == [] {
      assert ts + us == us;
    } else {
      var t := ts[0];
      assert (ts + us)[0] == t && (ts + us)[1..] == ts[1..] + us;
      if p[t.pc].Match? {
      } else if i < |s| && Accepts(p[t.pc], s[i]) {
        var r := Backtrack(p, s, t.pc + 1, i + 1, t.slots, later);
        if r.found.None? {
          RunThreadsAppend(p, s, ts[1..], us, i, width, r.memo);
        }
      } else {
        RunThreadsAppend(p, s, ts[1..], us, i, width, later);
      }
    }
  }

  /** What backtracking from `pc` amounts to when the whole position is explored first. */
  ghost predicate Layered(r: Outcome, c: (set<nat>, seq<Thread>), q: Outcome)
  {
    && r.found == q.found
    && (r.found.None? ==> r.memo == [c.0] + q.memo)
  }

  /** The two branches of a split, one after the other. */
  lemma LayeredSplit(p: Program, s: string, first: nat, second: nat, i: nat, slots: Slots, m: Memo)
    requires ValidProgram(p) && SevenBit(s) && first < |p| && second < |p|
    requires i <= |s| && |m| == |s| + 1 - i && ValidMemo(p, m)
    requires
      var c := Closure(p, i == 0, i == |s|, first, i, slots, m[0]);
      Layered(Backtrack(p, s, first, i, slots, m), c, RunThreads(p, s, c.1, i, |slots|, m[1..]))
    requires
      var r := Backtrack(p, s, first, i, slots, m);
      var d := Closure(p, i == 0, i == |s|, second, i, slots, r.memo[0]);
      r.found.None? ==>
        Layered(Backtrack(p, s, second, i, slots, r.memo), d, RunThreads(p, s, d.1, i, |slots|, r.memo[1..]))
    ensures
      var r := Backtrack(p, s, first, i, slots, m);
      var c := Closure(p, i == 0, i == |s|, first, i, slots, m[0]);
      var d := Closure(p, i == 0, i == |s|, second, i, slots, c.0);
      Layered(if r.found.Some? then r else Backtrack(p, s, second, i, slots, r.memo), (d.0, c.1 + d.1),
              RunThreads(p, s, c.1 + d.1, i, |slots|, m[1..]))
  {
    hide Backtrack, Closure, RunThreads;
    var r := Backtrack(p, s, first, i, slots, m);
    var c := Closure(p, i == 0, i == |s|, first, i, slots, m[0]);
    var d := Closure(p, i == 0, i == |s|, second, i, slots, c.0);
    RunThreadsAppend(p, s, c.1, d.1, i, |slots|, m[1..]);
    if r.found.None? {
      assert r.memo[0] == c.0 && r.memo[1..] == RunThreads(p, s, c.1, i, |slots|, m[1..]).memo;
    }
  }

  /** Exploring all of position `i` before any later one does not change the first match. */
  lemma {:induction false} LayeredBacktrack(
    p: Program, s: string, pc: nat, i: nat, slots: Slots, memo: Memo)
    requires ValidProgram(p) && SevenBit(s) && pc < |p|
    requires i <= |s| && |memo| == |s| + 1 - i && ValidMemo(p, memo)
    ensures
      var c := Closure(p, i == 0, i == |s|, pc, i, slots, memo[0]);
      Layered(Backtrack(p, s, pc, i, slots, memo), c,
              RunThreads(p, s, c.1, i, |slots|, memo[1..]))
    decreases AllPcs(p) - memo[0]
  {
    hide RunThreads, Accepts, Store;
    if Halts(p, pc, i, |s|, memo[0]) {
      LayeredLeaf(p, s, pc, i, slots, memo);
    } else {
      var m := memo[0 := memo[0] + {pc}];
      assert m[1..] == memo[1..];
      if p[pc].Split? {
        var first, second := p[pc].first, p[pc].second;
        LayeredBacktrack(p, s, first, i, slots, m);
        var r := Backtrack(p, s, first, i, slots, m);
        if r.found.None? {
          LayeredBacktrack(p, s, second, i, slots, r.memo);
        }
        LayeredSplit(p, s, first, second, i, slots, m);
      } else if p[pc].Jump? {
        LayeredBacktrack(p, s, p[pc].target, i, slots, m);
      } else if p[pc].Save? {
        LayeredBacktrack(p, s, pc + 1, i, Store(slots, p[pc].slot, i), m);
      } else {
        LayeredBacktrack(p, s, pc + 1, i, slots, m);
      }
    }
  }

  /** The closure ends here: a thread waits or has matched, an assertion fails, or the instruction was seen. */
  predicate Halts(p: Program, pc: nat, i: nat, n: nat, seen: set<nat>)
    requires pc < |p|
  {
    pc in seen ||
    match p[pc]
    case Split(_, _) => false
    case Jump(_) => false
    case Save(_) => false
    case AssertBegin => i != 0
    case AssertEnd => i != n
    case _ => true
  }

  lemma LayeredLeaf(p: Program, s: string, pc: nat, i: nat, slots: Slots, memo: Memo)
    requires ValidProgram(p) && SevenBit(s) && pc < |p|
    requires i <= |s| && |memo| == |s| + 1 - i && ValidMemo(p, memo) && Halts(p, pc, i, |s|, memo[0])
    ensures
      var c := Closure(p, i == 0, i == |s|, pc, i, slots, memo[0]);
      Layered(Backtrack(p, s, pc, i, slots, memo), c, RunThreads(p, s, c.1, i, |slots|, memo[1..]))
  {
    if pc !in memo[0] && (p[pc].Match? || IsConsuming(p[pc])) {
      LayeredThread(p, s, pc, i, slots, memo);
    } else {
      hide Accepts;
      var m := if pc in memo[0] then memo else memo[0 := memo[0] + {pc}];
      assert m[1..] == memo[1..] && m == [m[0]] + m[1..];
    }
  }

  /** A thread that waits for a character, or has matched. */
  lemma LayeredThread(p: Program, s: string, pc: nat, i: nat, slots: Slots, memo: Memo)
    requires ValidProgram(p) && SevenBit(s) && pc < |p| && (p[pc].Match? || IsConsuming(p[pc]))
    requires i <= |s| && |memo| == |s| + 1 - i && ValidMemo(p, memo) && pc !in memo[0]
    ensures
      var c := Closure(p, i == 0, i == |s|, pc, i, slots, memo[0]);
      Layered(Backtrack(p, s, pc, i, slots, memo), c, RunThreads(p, s, c.1, i, |slots|, memo[1..]))
  {
    hide Accepts;
    var m := memo[0 := memo[0] + {pc}];
    assert m[1..] == memo[1..] && m == [m[0]] + m[1..];
    assert [Thread(pc, slots)][1..] == [];
  }
}
