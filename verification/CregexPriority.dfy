/** Which match a run reports (src/cregex_vm.c:37-97 and 134-202): the captures are those of the first path
    to the match instruction, in the order of preference of its splits, among all paths that visit no
    instruction twice at one position. The stamps, which prune much more than that, do not change it. */
module CregexPriority {
  import opened Wrappers
  import opened Cregex
  import opened CregexBacktrack
  import opened CregexPaths

  // ----- Paths by their choices -----

  /** What has been visited at the position of `e`, after a step from `c`. */
  function Visited(c: Config, e: Config, path: set<nat>): set<nat>
  {
    if e.i == c.i then path + {c.pc} else {}
  }

  /** The choices lead from `c` to the match instruction, with the slots given, visiting nothing of `path`
      and no instruction twice at one position. At an instruction that is not a split the only choice is
      `true`. */
  ghost predicate Trail(p: Program, s: string, c: Config, path: set<nat>, choices: seq<bool>, slots: Slots)
    requires SevenBit(s)
    decreases |choices|
  {
    && c.pc < |p| && c.pc !in path
    && if p[c.pc].Match? then choices == [] && slots == c.slots
       else
         && choices != [] && (p[c.pc].Split? || choices[0])
         && match Step(p, s, c, choices[0])
            case None => false
            case Some(e) => Trail(p, s, e, Visited(c, e, path), choices[1..], slots)
  }

  /** `a` is `b`, or takes the preferred branch where they first part. */
  predicate Preferred(a: seq<bool>, b: seq<bool>)
    decreases |a|
  {
    a == [] || (b != [] && ((a[0] && !b[0]) || (a[0] == b[0] && Preferred(a[1..], b[1..]))))
  }

  // ----- Depth-first search over those paths -----

  ghost predicate Ready(p: Program, s: string, c: Config, path: set<nat>)
  {
    ValidProgram(p) && SevenBit(s) && c.pc < |p| && c.i <= |s| && path <= AllPcs(p)
  }

  lemma StepReady(p: Program, s: string, c: Config, b: bool, path: set<nat>)
    requires Ready(p, s, c, path) && Step(p, s, c, b).Some?
    ensures
      var e := Step(p, s, c, b).value;
      Ready(p, s, e, Visited(c, e, path)) && c.i <= e.i <= c.i + 1
  {
    hide Accepts;
  }

  /** The slots of the first path to a match. */
  ghost function Explore(p: Program, s: string, c: Config, path: set<nat>): Option<Slots>
    requires Ready(p, s, c, path)
    decreases |s| - c.i, AllPcs(p) - path, 1
  {
    if c.pc in path then None
    else if p[c.pc].Match? then Some(c.slots)
    else
      var r := Try(p, s, c, path, true);
      if r.Some? || !p[c.pc].Split? then r else Try(p, s, c, path, false)
  }

  ghost function Try(p: Program, s: string, c: Config, path: set<nat>, b: bool): Option<Slots>
    requires Ready(p, s, c, path) && c.pc !in path
    decreases |s| - c.i, AllPcs(p) - path, 0
  {
    match Step(p, s, c, b)
    case None => None
    case Some(e) =>
      StepReady(p, s, c, b, path);
      Explore(p, s, e, Visited(c, e, path))
  }

  /** The search gives the slots of the preferred path, and fails exactly when there is none. */
  ghost predicate IsFirst(p: Program, s: string, c: Config, path: set<nat>, found: Option<Slots>, choices: seq<bool>)
    requires SevenBit(s)
  {
    match found
    case None => forall other, v :: !Trail(p, s, c, path, other, v)
    case Some(slots) =>
      && Trail(p, s, c, path, choices, slots)
      && forall other, v :: Trail(p, s, c, path, other, v) ==> Preferred(choices, other)
  }

  lemma {:induction false} ExploreFirst(p: Program, s: string, c: Config, path: set<nat>) returns (choices: seq<bool>)
    requires Ready(p, s, c, path)
    ensures IsFirst(p, s, c, path, Explore(p, s, c, path), choices)
    decreases |s| - c.i, AllPcs(p) - path, 1
  {
    hide Step;
    choices := [];
    if c.pc !in path && !p[c.pc].Match? {
      var a := TryFirst(p, s, c, path, true);
      if Try(p, s, c, path, true).Some? || !p[c.pc].Split? {
        choices := [true] + a;
        FirstIs(p, s, c, path, true, a);
      } else {
        var b := TryFirst(p, s, c, path, false);
        choices := [false] + b;
        FirstIs(p, s, c, path, false, b);
      }
    }
  }

  /** The same of one branch. */
  ghost predicate BranchFirst(p: Program, s: string, c: Config, path: set<nat>, b: bool, found: Option<Slots>,
                              choices: seq<bool>)
    requires SevenBit(s) && c.pc < |p|
  {
    match Step(p, s, c, b)
    case None => found == None
    case Some(e) => IsFirst(p, s, e, Visited(c, e, path), found, choices)
  }

  lemma {:induction false} TryFirst(p: Program, s: string, c: Config, path: set<nat>, b: bool)
    returns (choices: seq<bool>)
    requires Ready(p, s, c, path) && c.pc !in path
    ensures BranchFirst(p, s, c, path, b, Try(p, s, c, path, b), choices)
    decreases |s| - c.i, AllPcs(p) - path, 0
  {
    hide Step, IsFirst, Explore;
    choices := [];
    if Step(p, s, c, b).Some? {
      StepReady(p, s, c, b, path);
      var e := Step(p, s, c, b).value;
      choices := ExploreFirst(p, s, e, Visited(c, e, path));
    }
  }

  /** From the branches to the instruction. */
  lemma FirstIs(p: Program, s: string, c: Config, path: set<nat>, b: bool, choices: seq<bool>)
    requires Ready(p, s, c, path) && c.pc !in path && !p[c.pc].Match? && (b || p[c.pc].Split?)
    requires BranchFirst(p, s, c, path, b, Try(p, s, c, path, b), choices)
    requires if b then Try(p, s, c, path, true).Some? || !p[c.pc].Split?
             else Try(p, s, c, path, true).None? && exists a :: BranchFirst(p, s, c, path, true, None, a)
    ensures IsFirst(p, s, c, path, Explore(p, s, c, path), [b] + choices)
  {
    hide Step;
    var all := [b] + choices;
    assert all[1..] == choices;
    forall other, v | Trail(p, s, c, path, other, v)
      ensures Explore(p, s, c, path).Some? && Preferred(all, other)
    {
      var e := Step(p, s, c, other[0]).value;
      assert Trail(p, s, e, Visited(c, e, path), other[1..], v);
    }
  }

  // ----- Pruning by stamps -----

  /** An instruction that is not on the path, which is at the first position. */
  predicate Off(path: set<nat>, k: nat, pc: nat)
  {
    k > 0 || pc !in path
  }

  /** All that has been tried and is not on the path has had its successors tried. */
  ghost predicate Open(p: Program, s: string, i: nat, memo: Memo, path: set<nat>)
    requires SevenBit(s) && i <= |s| && |memo| == |s| + 1 - i && ValidMemo(p, memo)
  {
    && path <= memo[0]
    && forall k, pc :: 0 <= k < |memo| && pc in memo[k] && Off(path, k, pc) ==> Covered(p, s, pc, i + k, memo[k..])
  }

  lemma OpenMark(p: Program, s: string, i: nat, memo: Memo, path: set<nat>, pc: nat)
    requires SevenBit(s) && i <= |s| && |memo| == |s| + 1 - i && ValidMemo(p, memo)
    requires pc < |p| && Open(p, s, i, memo, path)
    ensures
      var m := memo[0 := memo[0] + {pc}];
      ValidMemo(p, m) && Open(p, s, i, m, path + {pc})
  {
    var m := memo[0 := memo[0] + {pc}];
    forall k, q | 0 <= k < |m| && q in m[k] && Off(path + {pc}, k, q) ensures Covered(p, s, q, i + k, m[k..]) {
      assert q in memo[k] && Off(path, k, q);
      assert Covered(p, s, q, i + k, memo[k..]);
      CoveredMore(p, s, q, i + k, memo[k..], m[k..]);
    }
  }

  lemma OpenLonger(p: Program, s: string, i: nat, memo: Memo, path: set<nat>, pc: nat)
    requires SevenBit(s) && i <= |s| && |memo| == |s| + 1 - i && ValidMemo(p, memo)
    requires Open(p, s, i, memo, path) && pc in memo[0]
    ensures Open(p, s, i, memo, path + {pc})
  {
    hide Covered;
    forall k, q | 0 <= k < |memo| && q in memo[k] && Off(path + {pc}, k, q) ensures Covered(p, s, q, i + k, memo[k..]) {
      assert Off(path, k, q);
    }
  }

  lemma OpenNext(p: Program, s: string, i: nat, memo: Memo, path: set<nat>)
    requires SevenBit(s) && i < |s| && |memo| == |s| + 1 - i && ValidMemo(p, memo) && Open(p, s, i, memo, path)
    ensures ValidMemo(p, memo[1..]) && Open(p, s, i + 1, memo[1..], {})
  {
    forall k, q | 0 <= k < |memo| - 1 && q in memo[1..][k] ensures Covered(p, s, q, i + 1 + k, memo[1..][k..]) {
      var n := k + 1;
      assert memo[1..][k] == memo[n] && memo[1..][k..] == memo[n..] && Off(path, n, q);
      assert Covered(p, s, q, i + n, memo[n..]);
    }
  }

  lemma OpenSettled(p: Program, s: string, i: nat, memo: Memo, after: Memo, path: set<nat>)
    requires SevenBit(s) && i <= |s| && |memo| == |after| == |s| + 1 - i && ValidMemo(p, memo) && ValidMemo(p, after)
    requires Open(p, s, i, memo, path) && Settled(p, s, i, memo, after)
    ensures Open(p, s, i, after, path)
  {
    forall k, q | 0 <= k < |after| && q in after[k] && Off(path, k, q) ensures Covered(p, s, q, i + k, after[k..]) {
      if q in memo[k] {
        assert Covered(p, s, q, i + k, memo[k..]);
        CoveredMore(p, s, q, i + k, memo[k..], after[k..]);
      }
    }
  }

  /** The step from a covered instruction leads to one that was tried. */
  lemma CoveredStep(p: Program, s: string, c: Config, b: bool, memo: Memo)
    requires SevenBit(s) && c.pc < |p| && c.i <= |s| && |memo| == |s| + 1 - c.i && Covered(p, s, c.pc, c.i, memo)
    ensures !p[c.pc].Match?
    ensures Step(p, s, c, b).Some? ==>
              var e := Step(p, s, c, b).value;
              if e.i == c.i then e.pc in memo[0] else c.i < |s| && e.i == c.i + 1 && e.pc in memo[1]
  {
    hide Accepts;
  }

  /** Nothing is found from what was tried before and is not on the path. */
  lemma {:induction false} TriedFails(p: Program, s: string, c: Config, memo: Memo, path: set<nat>)
    requires Ready(p, s, c, path) && |memo| == |s| + 1 - c.i && ValidMemo(p, memo)
    requires Open(p, s, c.i, memo, path) && c.pc in memo[0]
    ensures Explore(p, s, c, path).None?
    decreases |s| - c.i, AllPcs(p) - path, 1
  {
    hide Step, Open, Covered;
    if c.pc !in path {
      assert Covered(p, s, c.pc, c.i, memo) by { OpenAt(p, s, c, memo, path); }
      CoveredStep(p, s, c, true, memo);
      TriedBranch(p, s, c, memo, path, true);
      TriedBranch(p, s, c, memo, path, false);
    }
  }

  lemma OpenAt(p: Program, s: string, c: Config, memo: Memo, path: set<nat>)
    requires SevenBit(s) && c.i <= |s| && |memo| == |s| + 1 - c.i && ValidMemo(p, memo) && Open(p, s, c.i, memo, path)
    requires c.pc in memo[0] && c.pc !in path && c.pc < |p|
    ensures Covered(p, s, c.pc, c.i, memo)
  {
    assert memo[0..] == memo && Off(path, 0, c.pc);
  }

  lemma {:induction false} TriedBranch(p: Program, s: string, c: Config, memo: Memo, path: set<nat>, b: bool)
    requires Ready(p, s, c, path) && |memo| == |s| + 1 - c.i && ValidMemo(p, memo)
    requires Open(p, s, c.i, memo, path) && c.pc in memo[0]
    requires c.pc !in path && Covered(p, s, c.pc, c.i, memo)
    ensures Try(p, s, c, path, b).None?
    decreases |s| - c.i, AllPcs(p) - path, 0
  {
    hide Step, Open, Covered, Explore;
    if Step(p, s, c, b).Some? {
      StepReady(p, s, c, b, path);
      CoveredStep(p, s, c, b, memo);
      var e := Step(p, s, c, b).value;
      if e.i == c.i {
        OpenLonger(p, s, c.i, memo, path, c.pc);
        TriedFails(p, s, e, memo, path + {c.pc});
      } else {
        OpenNext(p, s, c.i, memo, path);
        TriedFails(p, s, e, memo[1..], {});
      }
    }
  }

  /** What the pruned search does on one branch. */
  ghost function Branch(p: Program, s: string, c: Config, b: bool, memo: Memo): (r: Outcome)
    requires ValidProgram(p) && SevenBit(s) && c.pc < |p| && c.i <= |s| && |memo| == |s| + 1 - c.i && ValidMemo(p, memo)
  {
    match Step(p, s, c, b)
    case None => Outcome(memo, None)
    case Some(e) =>
      StepReady(p, s, c, b, {});
      if e.i == c.i then Backtrack(p, s, e.pc, e.i, e.slots, memo)
      else
        var r := Backtrack(p, s, e.pc, e.i, e.slots, memo[1..]);
        Outcome([memo[0]] + r.memo, r.found)
  }

  lemma BacktrackBranches(p: Program, s: string, c: Config, memo: Memo)
    requires ValidProgram(p) && SevenBit(s) && c.pc < |p| && c.i <= |s| && |memo| == |s| + 1 - c.i && ValidMemo(p, memo)
    requires c.pc !in memo[0] && !p[c.pc].Match?
    ensures
      var m := memo[0 := memo[0] + {c.pc}];
      ValidMemo(p, m) &&
      var r := Branch(p, s, c, true, m);
      && |r.memo| == |m| && ValidMemo(p, r.memo) && m[0] <= r.memo[0]
      && Backtrack(p, s, c.pc, c.i, c.slots, memo) ==
           if r.found.Some? || !p[c.pc].Split? then r else Branch(p, s, c, false, r.memo)
  {
  }

  /** A failed first branch of a split settles what it tried. */
  lemma SplitSettles(p: Program, s: string, c: Config, memo: Memo)
    requires ValidProgram(p) && SevenBit(s) && c.pc < |p| && c.i <= |s| && |memo| == |s| + 1 - c.i && ValidMemo(p, memo)
    requires p[c.pc].Split? && Branch(p, s, c, true, memo).found.None?
    ensures
      var r := Branch(p, s, c, true, memo);
      |r.memo| == |memo| && ValidMemo(p, r.memo) && Settled(p, s, c.i, memo, r.memo)
  {
    FailureSettles(p, s, p[c.pc].first, c.i, c.slots, memo);
  }

  /** Pruning does not change what is found. */
  lemma {:induction false} PruningKeeps(p: Program, s: string, c: Config, memo: Memo, path: set<nat>)
    requires Ready(p, s, c, path) && |memo| == |s| + 1 - c.i && ValidMemo(p, memo) && Open(p, s, c.i, memo, path)
    ensures Backtrack(p, s, c.pc, c.i, c.slots, memo).found == Explore(p, s, c, path)
    decreases |memo|, AllPcs(p) - memo[0], 1
  {
    hide Step, Open, Covered, Settled;
    OpenPath(p, s, c.i, memo, path);
    if c.pc in memo[0] {
      TriedFails(p, s, c, memo, path);
    } else if !p[c.pc].Match? {
      hide Backtrack, Branch;
      var m := memo[0 := memo[0] + {c.pc}];
      OpenMark(p, s, c.i, memo, path, c.pc);
      BacktrackBranches(p, s, c, memo);
      BranchKeeps(p, s, c, m, path, true);
      var r := Branch(p, s, c, true, m);
      if r.found.None? && p[c.pc].Split? {
        SplitSettles(p, s, c, m);
        OpenSettled(p, s, c.i, m, r.memo, path + {c.pc});
        BranchKeeps(p, s, c, r.memo, path, false);
      }
    }
  }

  lemma OpenPath(p: Program, s: string, i: nat, memo: Memo, path: set<nat>)
    requires SevenBit(s) && i <= |s| && |memo| == |s| + 1 - i && ValidMemo(p, memo) && Open(p, s, i, memo, path)
    ensures path <= memo[0]
  {
  }

  lemma {:induction false} BranchKeeps(p: Program, s: string, c: Config, memo: Memo, path: set<nat>, b: bool)
    requires Ready(p, s, c, path) && |memo| == |s| + 1 - c.i && ValidMemo(p, memo) && c.pc !in path
    requires Open(p, s, c.i, memo, path + {c.pc})
    ensures Branch(p, s, c, b, memo).found == Try(p, s, c, path, b)
    decreases |memo|, AllPcs(p) - memo[0], 2
  {
    hide Step, Open, Covered, Explore, Backtrack;
    if Step(p, s, c, b).Some? {
      StepReady(p, s, c, b, path);
      var e := Step(p, s, c, b).value;
      if e.i == c.i {
        PruningKeeps(p, s, e, memo, path + {c.pc});
      } else {
        OpenNext(p, s, c.i, memo, path + {c.pc});
        PruningKeeps(p, s, e, memo[1..], {});
      }
    }
  }

  /** The captures that a run reports are those of the preferred path, among all that visit no instruction
      twice at one position; there is no match exactly when there is no such path. */
  lemma FirstPath(p: Program, s: string, slots: Slots) returns (choices: seq<bool>)
    requires ValidProgram(p) && |p| > 0 && SevenBit(s)
    ensures IsFirst(p, s, Config(0, 0, slots), {}, Backtrack(p, s, 0, 0, slots, FreshMemo(s)).found, choices)
  {
    hide Backtrack, Explore, IsFirst, Open;
    var c := Config(0, 0, slots);
    NothingOpen(p, s);
    PruningKeeps(p, s, c, FreshMemo(s), {});
    choices := ExploreFirst(p, s, c, {});
  }

  lemma NothingOpen(p: Program, s: string)
    requires SevenBit(s)
    ensures |FreshMemo(s)| == |s| + 1 && ValidMemo(p, FreshMemo(s)) && Open(p, s, 0, FreshMemo(s), {})
  {
  }
}
