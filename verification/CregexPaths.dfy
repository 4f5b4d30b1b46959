/** Execution paths through a program, and what the backtracker's answer says about them:
    a match it finds is the end of a path, and when it finds none there is no path. */
module CregexPaths {
  import opened Wrappers
  import opened Cregex
  import opened CregexBacktrack

  /** A point of execution: the next instruction, the string position and the capture slots. */
  datatype Config = Config(pc: nat, i: nat, slots: Slots)

  /** One step of execution; `b` picks the branch of a split. */
  function Step(p: Program, s: string, c: Config, b: bool): (r: Option<Config>)
    requires SevenBit(s) && c.pc < |p|
    ensures r.Some? ==> c.i <= r.value.i && (c.i <= |s| ==> r.value.i <= |s|)
    ensures r.Some? ==> |r.value.slots| == |c.slots|
  {
    match p[c.pc]
    case Match => None
    case Split(first, second) => Some(c.(pc := if b then first else second))
    case Jump(target) => Some(c.(pc := target))
    case AssertBegin => if c.i == 0 then Some(c.(pc := c.pc + 1)) else None
    case AssertEnd => if c.i == |s| then Some(c.(pc := c.pc + 1)) else None
    case Save(k) => Some(Config(c.pc + 1, c.i, Store(c.slots, k, c.i)))
    case _ => if c.i < |s| && Accepts(p[c.pc], s[c.i]) then Some(Config(c.pc + 1, c.i + 1, c.slots)) else None
  }

  /** Some path of at most `n` steps leads from `c` to instruction `d.pc`, and is at `d` when it
      first gets there. */
  ghost predicate Exits(p: Program, s: string, c: Config, d: Config, n: nat)
    requires SevenBit(s)
    decreases n
  {
    if c.pc == d.pc then
      c == d
    else
      && n > 0
      && c.pc < |p|
      && exists b: bool :: Step(p, s, c, b).Some? && Exits(p, s, Step(p, s, c, b).value, d, n - 1)
  }

  lemma {:induction false} ExitsMore(p: Program, s: string, c: Config, d: Config, n: nat, m: nat)
    requires SevenBit(s) && n <= m && Exits(p, s, c, d, n)
    ensures Exits(p, s, c, d, m)
    decreases n
  {
    if c.pc != d.pc {
      var b :| Step(p, s, c, b).Some? && Exits(p, s, Step(p, s, c, b).value, d, n - 1);
      ExitsMore(p, s, Step(p, s, c, b).value, d, n - 1, m - 1);
    }
  }

  // ----- Fragments: stretches of code that can only be left at their end -----

  predicate Contained(ins: Instr, lo: nat, hi: nat)
  {
    match ins
    case Match => false
    case Split(first, second) => lo <= first <= hi && lo <= second <= hi
    case Jump(target) => lo <= target <= hi
    case _ => true
  }

  predicate Fragment(p: Program, lo: nat, hi: nat)
  {
    && lo <= hi <= |p|
    && forall pc :: lo <= pc < hi ==> Contained(p[pc], lo, hi)
  }

  /** A path that leaves the fragment [lo, mid) first reaches `mid`. */
  lemma {:induction false} ExitsSplit(p: Program, s: string, lo: nat, mid: nat, c: Config, d: Config, n: nat)
    returns (via: Config, m: nat)
    requires SevenBit(s) && Fragment(p, lo, mid) && lo <= c.pc <= mid && !(lo <= d.pc < mid) && c.i <= |s|
    requires Exits(p, s, c, d, n)
    ensures via.pc == mid && c.i <= via.i <= |s|
    ensures Exits(p, s, c, via, n) && Exits(p, s, via, d, m)
    ensures m <= n && (c.pc < mid ==> m < n)
    decreases n
  {
    if c.pc == mid {
      via, m := c, n;
    } else {
      var b :| Step(p, s, c, b).Some? && Exits(p, s, Step(p, s, c, b).value, d, n - 1);
      via, m := ExitsSplit(p, s, lo, mid, Step(p, s, c, b).value, d, n - 1);
    }
  }

  /** The first step of a path. */
  lemma ExitsStep(p: Program, s: string, c: Config, d: Config, n: nat) returns (b: bool)
    requires SevenBit(s) && Exits(p, s, c, d, n) && c.pc != d.pc
    ensures n > 0 && c.pc < |p| && Step(p, s, c, b).Some? && Exits(p, s, Step(p, s, c, b).value, d, n - 1)
  {
    hide Step;
    b :| Step(p, s, c, b).Some? && Exits(p, s, Step(p, s, c, b).value, d, n - 1);
  }

  lemma ExitsEnd(p: Program, s: string, c: Config, d: Config, n: nat)
    requires SevenBit(s) && Exits(p, s, c, d, n) && c.pc == d.pc
    ensures c == d
  {
  }

  /** Steps from inside a fragment stay in it or leave it at its end. */
  lemma StepInside(p: Program, s: string, lo: nat, hi: nat, c: Config, b: bool)
    requires SevenBit(s) && Fragment(p, lo, hi) && lo <= c.pc < hi && c.pc < |p| && Step(p, s, c, b).Some?
    ensures lo <= Step(p, s, c, b).value.pc <= hi
  {
    hide Accepts;
  }

  /** Conversely, a path through a fragment can be continued from its end. */
  lemma {:induction false} ExitsJoin(
    p: Program, s: string, lo: nat, c: Config, via: Config, d: Config, n: nat, m: nat)
    requires SevenBit(s) && Fragment(p, lo, via.pc) && lo <= c.pc <= via.pc && !(lo <= d.pc < via.pc)
    requires Exits(p, s, c, via, n) && Exits(p, s, via, d, m)
    ensures Exits(p, s, c, d, n + m)
    decreases n
  {
    hide Exits, Step, Fragment;
    if c.pc == via.pc { ExitsEnd(p, s, c, via, n); }
    if c.pc == via.pc {
      ExitsMore(p, s, c, d, m, n + m);
    } else {
      var b := ExitsStep(p, s, c, via, n);
      StepInside(p, s, lo, via.pc, c, b);
      ExitsJoin(p, s, lo, Step(p, s, c, b).value, via, d, n - 1, m);
      ExitsFirst(p, s, c, b, d, n - 1 + m);
    }
  }

  /** A slot that no instruction of the fragment saves to keeps its value along the fragment. */
  lemma {:induction false} ExitsKeepsSlot(p: Program, s: string, lo: nat, c: Config, d: Config, n: nat, slot: nat)
    requires SevenBit(s) && Fragment(p, lo, d.pc) && lo <= c.pc <= d.pc && slot < |c.slots|
    requires forall q :: lo <= q < d.pc ==> p[q] != Save(slot)
    requires Exits(p, s, c, d, n)
    ensures |d.slots| == |c.slots| && d.slots[slot] == c.slots[slot]
    decreases n
  {
    if c.pc != d.pc {
      var b :| Step(p, s, c, b).Some? && Exits(p, s, Step(p, s, c, b).value, d, n - 1);
      ExitsKeepsSlot(p, s, lo, Step(p, s, c, b).value, d, n - 1, slot);
    }
  }

  // ----- The backtracker's answer -----

  /** The match instruction is the last one, and the only one of its kind. */
  predicate Linked(p: Program)
  {
    && ValidProgram(p)
    && forall pc :: 0 <= pc < |p| ==> (p[pc].Match? <==> pc == |p| - 1)
  }

  /** The step that a successful search takes first, and the search it goes on with. */
  lemma BacktrackVia(p: Program, s: string, pc: nat, i: nat, slots: Slots, memo: Memo)
    returns (b: bool, e: Config, rest: Memo)
    requires Linked(p) && SevenBit(s) && pc < |p| && !p[pc].Match?
    requires i <= |s| && |memo| == |s| + 1 - i && ValidMemo(p, memo)
    requires Backtrack(p, s, pc, i, slots, memo).found.Some?
    ensures Step(p, s, Config(pc, i, slots), b) == Some(e) && e.pc < |p| && i <= e.i <= |s|
    ensures |rest| == |s| + 1 - e.i && ValidMemo(p, rest) && pc !in memo[0]
    ensures |rest| < |memo| || (|rest| == |memo| && memo[0] + {pc} <= rest[0])
    ensures Backtrack(p, s, e.pc, e.i, e.slots, rest).found == Backtrack(p, s, pc, i, slots, memo).found
  {
    var m := memo[0 := memo[0] + {pc}];
    b, rest := true, m;
    match p[pc] {
      case Match =>
      case Split(first, second) =>
        var r := Backtrack(p, s, first, i, slots, m);
        b := r.found.Some?;
        if !b { rest := r.memo; }
      case Jump(_) =>
      case AssertBegin =>
      case AssertEnd =>
      case Save(_) =>
      case _ => rest := m[1..];
    }
    e := Step(p, s, Config(pc, i, slots), b).value;
  }

  /** A match found by backtracking is the end of a path, with the slots saved along it. */
  lemma {:induction false} BacktrackSound(
    p: Program, s: string, pc: nat, i: nat, slots: Slots, memo: Memo) returns (j: nat, n: nat)
    requires Linked(p) && SevenBit(s) && pc < |p|
    requires i <= |s| && |memo| == |s| + 1 - i && ValidMemo(p, memo)
    requires Backtrack(p, s, pc, i, slots, memo).found.Some?
    ensures i <= j <= |s|
    ensures Exits(p, s, Config(pc, i, slots), Config(|p| - 1, j, Backtrack(p, s, pc, i, slots, memo).found.value), n)
    decreases |memo|, AllPcs(p) - memo[0]
  {
    var c := Config(pc, i, slots);
    if p[pc].Match? {
      ExitsHere(p, s, c);
      return i, 0;
    }
    hide Exits, Step, Backtrack;
    var b, e, rest := BacktrackVia(p, s, pc, i, slots, memo);
    j, n := BacktrackSound(p, s, e.pc, e.i, e.slots, rest);
    ExitsFirst(p, s, c, b, Config(|p| - 1, j, Backtrack(p, s, pc, i, slots, memo).found.value), n);
    n := n + 1;
  }

  lemma ExitsHere(p: Program, s: string, c: Config)
    requires SevenBit(s)
    ensures Exits(p, s, c, c, 0)
  {
  }

  lemma ExitsFirst(p: Program, s: string, c: Config, b: bool, d: Config, n: nat)
    requires SevenBit(s) && c.pc < |p| && c.pc != d.pc && Step(p, s, c, b).Some?
    requires Exits(p, s, Step(p, s, c, b).value, d, n)
    ensures Exits(p, s, c, d, n + 1)
  {
    hide Step;
  }

  /** All successors of instruction `pc` at position `i` are in the memo. */
  ghost predicate Covered(p: Program, s: string, pc: nat, i: nat, memo: Memo)
    requires pc < |p| && SevenBit(s) && i <= |s| && |memo| == |s| + 1 - i
  {
    match p[pc]
    case Match => false
    case Split(first, second) => first in memo[0] && second in memo[0]
    case Jump(target) => target in memo[0]
    case AssertBegin => i == 0 ==> pc + 1 in memo[0]
    case AssertEnd => i == |s| ==> pc + 1 in memo[0]
    case Save(_) => pc + 1 in memo[0]
    case _ => i < |s| && Accepts(p[pc], s[i]) ==> pc + 1 in memo[1]
  }

  ghost predicate Grows(before: Memo, after: Memo)
  {
    |before| == |after| && forall k :: 0 <= k < |before| ==> before[k] <= after[k]
  }

  /** What was tried since `before` has had all its successors tried too. */
  ghost predicate Settled(p: Program, s: string, i: nat, before: Memo, after: Memo)
    requires SevenBit(s) && i <= |s| && |before| == |after| == |s| + 1 - i && ValidMemo(p, after)
  {
    && Grows(before, after)
    && forall k, pc :: 0 <= k < |after| && pc in after[k] && pc !in before[k] ==>
         Covered(p, s, pc, i + k, after[k..])
  }

  lemma {:induction false} SettledTrans(p: Program, s: string, i: nat, a: Memo, b: Memo, c: Memo)
    requires SevenBit(s) && i <= |s| && |a| == |b| == |c| == |s| + 1 - i && ValidMemo(p, b) && ValidMemo(p, c)
    requires Settled(p, s, i, a, b) && Settled(p, s, i, b, c)
    ensures Settled(p, s, i, a, c)
  {
    forall k, pc | 0 <= k < |c| && pc in c[k] && pc !in a[k]
      ensures Covered(p, s, pc, i + k, c[k..])
    {
      if pc in b[k] {
        assert Covered(p, s, pc, i + k, b[k..]);
        CoveredMore(p, s, pc, i + k, b[k..], c[k..]);
      }
    }
  }

  lemma CoveredMore(p: Program, s: string, pc: nat, i: nat, a: Memo, b: Memo)
    requires pc < |p| && SevenBit(s) && i <= |s| && |a| == |s| + 1 - i && Grows(a, b)
    requires Covered(p, s, pc, i, a)
    ensures Covered(p, s, pc, i, b)
  {
  }

  /** The memo after a first step that only marks `pc` at this position, once `pc` is covered. */
  lemma MarkSettles(p: Program, s: string, pc: nat, i: nat, memo: Memo, after: Memo)
    requires SevenBit(s) && pc < |p| && i <= |s| && |memo| == |after| == |s| + 1 - i && ValidMemo(p, after)
    requires Settled(p, s, i, memo[0 := memo[0] + {pc}], after)
    requires Covered(p, s, pc, i, after)
    ensures Settled(p, s, i, memo, after)
  {
    var m := memo[0 := memo[0] + {pc}];
    assert after[0..] == after;
    assert forall k :: 0 <= k < |memo| ==> memo[k] <= m[k];
  }

  /** When backtracking finds nothing, everything it tried has been settled. */
  lemma {:induction false} FailureSettles(p: Program, s: string, pc: nat, i: nat, slots: Slots, memo: Memo)
    requires ValidProgram(p) && SevenBit(s) && pc < |p|
    requires i <= |s| && |memo| == |s| + 1 - i && ValidMemo(p, memo)
    requires Backtrack(p, s, pc, i, slots, memo).found.None?
    ensures Settled(p, s, i, memo, Backtrack(p, s, pc, i, slots, memo).memo)
    decreases |memo|, AllPcs(p) - memo[0]
  {
    if pc !in memo[0] {
      var after := Backtrack(p, s, pc, i, slots, memo).memo;
      var m := memo[0 := memo[0] + {pc}];
      match p[pc] {
        case Match =>
        case Split(first, second) =>
          var r := Backtrack(p, s, first, i, slots, m);
          FailureSettles(p, s, first, i, slots, m);
          FailureSettles(p, s, second, i, slots, r.memo);
          SettledTrans(p, s, i, m, r.memo, after);
        case Jump(target) => FailureSettles(p, s, target, i, slots, m);
        case AssertBegin => if i == 0 { FailureSettles(p, s, pc + 1, i, slots, m); }
        case AssertEnd => if i == |s| { FailureSettles(p, s, pc + 1, i, slots, m); }
        case Save(k) => FailureSettles(p, s, pc + 1, i, Store(slots, k, i), m);
        case _ =>
          if i < |s| && Accepts(p[pc], s[i]) {
            FailureSettles(p, s, pc + 1, i + 1, slots, m[1..]);
            SettledLater(p, s, i, m, after);
          }
      }
      MarkSettles(p, s, pc, i, memo, after);
    }
  }

  lemma SettledLater(p: Program, s: string, i: nat, m: Memo, after: Memo)
    requires SevenBit(s) && i < |s| && |m| == |after| == |s| + 1 - i && ValidMemo(p, after)
    requires m[0] == after[0] && Settled(p, s, i + 1, m[1..], after[1..])
    ensures Settled(p, s, i, m, after)
  {
    forall k, pc | 0 <= k < |after| && pc in after[k] && pc !in m[k]
      ensures Covered(p, s, pc, i + k, after[k..])
    {
      assert after[1..][k - 1..] == after[k..];
      assert after[1..][k - 1] == after[k] && m[1..][k - 1] == m[k];
    }
    forall k | 0 <= k < |m| ensures m[k] <= after[k] {
      if k > 0 { assert m[1..][k - 1] == m[k] && after[1..][k - 1] == after[k]; }
    }
  }

  /** No path from instruction `pc` at position `i` reaches the match instruction. */
  ghost predicate Dead(p: Program, s: string, pc: nat, i: nat)
    requires SevenBit(s)
  {
    forall c: Config, d: Config, n: nat ::
      c.pc == pc && c.i == i && d.pc + 1 == |p| ==> !Exits(p, s, c, d, n)
  }

  /** Everything in the memo at or after instruction `lo` is dead. */
  ghost predicate AllDead(p: Program, s: string, lo: nat, i: nat, memo: Memo)
    requires SevenBit(s)
  {
    forall k, pc :: 0 <= k < |memo| && pc in memo[k] && lo <= pc ==> Dead(p, s, pc, i + k)
  }

  /** Instructions from `lo` on are never left backwards. */
  predicate Above(p: Program, lo: nat)
  {
    forall pc :: lo <= pc < |p| ==> (p[pc].Split? ==> lo <= p[pc].first && lo <= p[pc].second) &&
                                    (p[pc].Jump? ==> lo <= p[pc].target)
  }

  lemma {:induction false} SettledDead(
    p: Program, s: string, lo: nat, i: nat, before: Memo, after: Memo, k: nat, c: Config, d: Config, n: nat)
    requires Linked(p) && Above(p, lo) && SevenBit(s)
    requires i <= |s| && |before| == |after| == |s| + 1 - i && ValidMemo(p, after)
    requires Settled(p, s, i, before, after) && AllDead(p, s, lo, i, before)
    requires k < |after| && c.i == i + k && c.pc in after[k] && lo <= c.pc
    requires d.pc == |p| - 1
    ensures !Exits(p, s, c, d, n)
    decreases n
  {
    if c.pc in before[k] {
      assert Dead(p, s, c.pc, i + k);
    } else if Exits(p, s, c, d, n) {
      assert Covered(p, s, c.pc, i + k, after[k..]);
      assert after[k..][0] == after[k];
      var b :| Step(p, s, c, b).Some? && Exits(p, s, Step(p, s, c, b).value, d, n - 1);
      var e := Step(p, s, c, b).value;
      if e.i == c.i {
        SettledDead(p, s, lo, i, before, after, k, e, d, n - 1);
      } else {
        assert after[k..][1] == after[k + 1];
        SettledDead(p, s, lo, i, before, after, k + 1, e, d, n - 1);
      }
    }
  }

  /** When backtracking finds nothing, nothing it tried could have led to a match. */
  lemma FailureDead(p: Program, s: string, lo: nat, pc: nat, i: nat, slots: Slots, memo: Memo)
    requires Linked(p) && Above(p, lo) && SevenBit(s) && lo <= pc < |p|
    requires i <= |s| && |memo| == |s| + 1 - i && ValidMemo(p, memo)
    requires AllDead(p, s, lo, i, memo)
    requires Backtrack(p, s, pc, i, slots, memo).found.None?
    ensures AllDead(p, s, lo, i, Backtrack(p, s, pc, i, slots, memo).memo)
    ensures Dead(p, s, pc, i)
  {
    FailureSettles(p, s, pc, i, slots, memo);
    var after := Backtrack(p, s, pc, i, slots, memo).memo;
    forall k, q | 0 <= k < |after| && q in after[k] && lo <= q
      ensures Dead(p, s, q, i + k)
    {
      forall c: Config, d: Config, n: nat | c.pc == q && c.i == i + k && d.pc + 1 == |p|
        ensures !Exits(p, s, c, d, n)
      {
        SettledDead(p, s, lo, i, memo, after, k, c, d, n);
      }
    }
    assert pc in after[0] && Dead(p, s, pc, i + 0);
  }
}
