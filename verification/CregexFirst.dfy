/** Which way of matching a run reports (src/cregex_vm.c:122-203 with src/cregex_compile.c:129-289): the
    leftmost start, and from there the preferred derivation of the tree. */
module CregexFirst {
  import opened Wrappers
  import opened Cregex
  import opened CregexSemantics
  import opened CregexBacktrack
  import opened CregexPaths
  import opened CregexPriority
  import opened CregexCode
  import opened CregexCodeCorrect
  import opened CregexProgram
  import opened CregexDerivation
  import opened CregexWords
  import opened CregexReadBack
  import opened CregexCycles

  // ----- The order of derivations is the order of their choices -----

  lemma {:induction false} PreferredSame(x: seq<bool>, u: seq<bool>, v: seq<bool>)
    ensures Preferred(x + u, x + v) == Preferred(u, v)
    decreases |x|
  {
    if x == [] {
      assert x + u == u && x + v == v;
    } else {
      assert (x + u)[1..] == x[1..] + u && (x + v)[1..] == x[1..] + v;
      PreferredSame(x[1..], u, v);
    }
  }

  lemma PreferredPart(x: seq<bool>, a: bool, b: bool, u: seq<bool>, v: seq<bool>)
    requires a != b
    ensures Preferred(x + ([a] + u), x + ([b] + v)) == a
  {
    PreferredSame(x, [a] + u, [b] + v);
  }

  /** Comparing two paths that begin with derivations from the same place. */
  lemma {:induction false} WordOrder(n: Node, s: string, a: Derivation, b: Derivation, i: nat, u: seq<bool>,
                                     v: seq<bool>)
    requires WellFormed(n) && Follow(n, s, a, i).Some? && Follow(n, s, b, i).Some?
    ensures Preferred(Word(n, a) + u, Word(n, b) + v) == if a == b then Preferred(u, v) else Prefers(n, a, b)
    decreases a
  {
    hide Preferred;
    if a == b {
      PreferredSame(Word(n, a), u, v);
    } else {
      match a
      case Both(x, y) =>
        var l, r, l', r' := Word(n.left, x), Word(n.right, y), Word(n.left, b.first), Word(n.right, b.second);
        assert l + r + u == l + (r + u) && l' + r' + v == l' + (r' + v);
        WordOrder(n.left, s, x, b.first, i, r + u, r' + v);
        if x == b.first { WordOrder(n.right, s, y, b.second, Follow(n.left, s, x, i).value, u, v); }
      case Either(left, x) => EitherOrder(n, s, a, b, i, u, v);
      case Inner(x) =>
        var w, w' := Word(n.captured, x), Word(n.captured, b.inner);
        assert [true] + w + [true] + u == [true] + (w + ([true] + u));
        assert [true] + w' + [true] + v == [true] + (w' + ([true] + v));
        PreferredSame([true], w + ([true] + u), w' + ([true] + v));
        WordOrder(n.captured, s, x, b.inner, i, [true] + u, [true] + v);
      case Several(ps) => PassesOrder(n, s, ps, b.passes, 0, i, u, v);
    }
  }

  lemma {:induction false} EitherOrder(n: Node, s: string, a: Derivation, b: Derivation, i: nat, u: seq<bool>,
                                       v: seq<bool>)
    requires WellFormed(n) && Follow(n, s, a, i).Some? && Follow(n, s, b, i).Some? && a.Either? && b.Either? && a != b
    ensures Preferred(Word(n, a) + u, Word(n, b) + v) == Prefers(n, a, b)
    decreases a, 0
  {
    hide Preferred, Word, Follow;
    EitherWord(n, a, u);
    EitherWord(n, b, v);
    EitherSide(n, s, a, i);
    EitherSide(n, s, b, i);
    var side, side' := Side(n, a), Side(n, b);
    var w, w' := Word(side, a.chosen), Word(side', b.chosen);
    var t, t' := (if a.left then [true] else []) + u, (if b.left then [true] else []) + v;
    if a.left == b.left {
      PreferredSame([a.left], w + t, w' + t');
      WordOrder(side, s, a.chosen, b.chosen, i, t, t');
    } else {
      PreferredPart([], a.left, b.left, w + t, w' + t');
      assert [] + ([a.left] + (w + t)) == [a.left] + (w + t);
      assert [] + ([b.left] + (w' + t')) == [b.left] + (w' + t');
    }
  }

  function Side(n: Node, d: Derivation): Node
    requires n.Alternation? && d.Either?
  {
    if d.left then n.left else n.right
  }

  lemma EitherSide(n: Node, s: string, d: Derivation, i: nat)
    requires WellFormed(n) && d.Either? && Follow(n, s, d, i).Some?
    ensures n.Alternation? && WellFormed(Side(n, d)) && Follow(Side(n, d), s, d.chosen, i).Some?
  {
  }

  lemma EitherWord(n: Node, d: Derivation, u: seq<bool>)
    requires d.Either?
    ensures n.Alternation? ==>
      Word(n, d) + u == [d.left] + (Word(Side(n, d), d.chosen) + ((if d.left then [true] else []) + u))
  {
    if n.Alternation? {
      var w := Word(Side(n, d), d.chosen);
      if d.left {
        assert [true] + w + [true] + u == [true] + (w + ([true] + u));
      } else {
        assert [false] + w + u == [false] + (w + ([] + u));
      }
    }
  }

  /** A loop after required copies decides at the end of a pass: from there both go on, or both stop. */
  predicate InStep(n: Node, a: Passes, b: Passes)
    requires n.Quantifier?
  {
    n.nmax == -1 && n.nmin > 0 ==> a.Pass? == b.Pass?
  }

  lemma {:induction false} PassesOrder(n: Node, s: string, a: Passes, b: Passes, k: nat, i: nat, u: seq<bool>,
                                       v: seq<bool>)
    requires WellFormed(n) && n.Quantifier? && InStep(n, a, b)
    requires FollowPasses(n, s, a, k, i).Some? && FollowPasses(n, s, b, k, i).Some?
    ensures Preferred(PassesWord(n, a, k) + u, PassesWord(n, b, k) + v) ==
            if a == b then Preferred(u, v) else PrefersPasses(n, a, b)
    decreases a, 2
  {
    hide Preferred;
    if a.Pass? && b.Pass? {
      BothPass(n, s, a, b, k, i, u, v);
    } else if a.Skip? && b.Skip? {
      var x, y := PassesWord(n, a.rest, k + 1) + u, PassesWord(n, b.rest, k + 1) + v;
      assert PassesWord(n, a, k) + u == [!n.greedy] + x && PassesWord(n, b, k) + v == [!n.greedy] + y;
      PreferredSame([!n.greedy], x, y);
      PassesOrder(n, s, a.rest, b.rest, k + 1, i, u, v);
    } else if a.Pass? || b.Pass? {
      Decides(n, s, a, b, k, i, u, v);
    } else {
      PreferredSame(PassesWord(n, a, k), u, v);
    }
  }

  /** One makes a pass and the other does not. */
  lemma Decides(n: Node, s: string, a: Passes, b: Passes, k: nat, i: nat, u: seq<bool>, v: seq<bool>)
    requires WellFormed(n) && n.Quantifier? && InStep(n, a, b) && a.Pass? != b.Pass?
    requires FollowPasses(n, s, a, k, i).Some? && FollowPasses(n, s, b, k, i).Some?
    ensures Preferred(PassesWord(n, a, k) + u, PassesWord(n, b, k) + v) == PrefersPasses(n, a, b)
  {
    hide Preferred, Follow, Word;
    var x, y := PassesWord(n, a, k) + u, PassesWord(n, b, k) + v;
    assert x[0] == (n.greedy == a.Pass?) && y[0] == (n.greedy == b.Pass?) by {
      Decision(n, s, a, k, i);
      Decision(n, s, b, k, i);
    }
    assert x == [] + ([x[0]] + x[1..]) && y == [] + ([y[0]] + y[1..]);
    PreferredPart([], x[0], y[0], x[1..], y[1..]);
  }

  lemma Decision(n: Node, s: string, a: Passes, k: nat, i: nat)
    requires WellFormed(n) && n.Quantifier? && FollowPasses(n, s, a, k, i).Some?
    requires (n.nmax == -1 && n.nmin == 0) || (n.nmax != -1 && n.nmin <= k < n.nmax)
    ensures PassesWord(n, a, k) != [] && PassesWord(n, a, k)[0] == (n.greedy == a.Pass?)
  {
    hide Follow, Word;
  }

  lemma {:induction false} BothPass(n: Node, s: string, a: Passes, b: Passes, k: nat, i: nat, u: seq<bool>,
                                    v: seq<bool>)
    requires WellFormed(n) && n.Quantifier? && a.Pass? && b.Pass?
    requires FollowPasses(n, s, a, k, i).Some? && FollowPasses(n, s, b, k, i).Some?
    ensures Preferred(PassesWord(n, a, k) + u, PassesWord(n, b, k) + v) ==
            if a == b then Preferred(u, v) else PrefersPasses(n, a, b)
    decreases a, 1
  {
    hide Preferred, Follow, Word, PassesWord;
    var before := if (n.nmax == -1 && n.nmin > 0) || (n.nmax != -1 && k < n.nmin) then [] else [n.greedy];
    var x, y := Between(n, a.rest, k), Between(n, b.rest, k);
    var p, q := PassesWord(n, a.rest, k + 1) + u, PassesWord(n, b.rest, k + 1) + v;
    var w, w' := Word(n.quantified, a.made), Word(n.quantified, b.made);
    PassWord(n, a.made, a.rest, k, before, x);
    PassWord(n, b.made, b.rest, k, before, y);
    Regroup(before, w, x, PassesWord(n, a.rest, k + 1), u);
    Regroup(before, w', y, PassesWord(n, b.rest, k + 1), v);
    PreferredSame(before, w + (x + p), w' + (y + q));
    WordOrder(n.quantified, s, a.made, b.made, i, x + p, y + q);
    if a.made == b.made { RestOrder(n, s, a.rest, b.rest, k, Follow(n.quantified, s, a.made, i).value, u, v); }
  }

  /** The choices between a pass and the next. */
  function Between(n: Node, rest: Passes, k: nat): seq<bool>
    requires n.Quantifier?
  {
    if n.nmax != -1 then [] else if n.nmin == 0 then [true]
    else if k + 1 >= n.nmin then [n.greedy == rest.Pass?] else []
  }

  lemma {:induction false} RestOrder(n: Node, s: string, a: Passes, b: Passes, k: nat, i: nat, u: seq<bool>,
                                     v: seq<bool>)
    requires WellFormed(n) && n.Quantifier?
    requires FollowPasses(n, s, a, k + 1, i).Some? && FollowPasses(n, s, b, k + 1, i).Some?
    ensures Preferred(Between(n, a, k) + (PassesWord(n, a, k + 1) + u),
                      Between(n, b, k) + (PassesWord(n, b, k + 1) + v)) ==
            if a == b then Preferred(u, v) else PrefersPasses(n, a, b)
    decreases a, 3
  {
    hide Preferred, Follow, Word, PassesWord;
    var p, q := PassesWord(n, a, k + 1) + u, PassesWord(n, b, k + 1) + v;
    if n.nmax == -1 && n.nmin > 0 && k + 1 >= n.nmin && a.Pass? != b.Pass? {
      PreferredPart([], n.greedy == a.Pass?, n.greedy == b.Pass?, p, q);
      assert [] + (Between(n, a, k) + p) == Between(n, a, k) + p && [] + (Between(n, b, k) + q) == Between(n, b, k) + q;
    } else {
      PreferredSame(Between(n, a, k), p, q);
      PassesOrder(n, s, a, b, k + 1, i, u, v);
    }
  }

  // ----- Runs -----

  /** The way from the start of the program to its end. */
  lemma {:induction false} TrailExec(p: Program, s: string, c: Config, path: set<nat>, w: seq<bool>, slots: Slots)
    returns (e: Config)
    requires SevenBit(s) && Trail(p, s, c, path, w, slots)
    ensures Exec(p, s, c, w) == Some(e) && e.pc < |p| && p[e.pc].Match? && e.slots == slots
    decreases |w|
  {
    hide Step;
    if p[c.pc].Match? {
      e := c;
    } else {
      var x := Step(p, s, c, w[0]).value;
      e := TrailExec(p, s, x, Visited(c, x, path), w[1..], slots);
    }
  }

  /** No way leads on from the match instruction. */
  lemma MatchStops(p: Program, s: string, c: Config, w: seq<bool>, e: Config)
    requires SevenBit(s) && c.pc < |p| && p[c.pc].Match? && Exec(p, s, c, w) == Some(e)
    ensures w == [] && e == c
  {
  }

  /** The derivation visits no instruction twice at one position. */
  ghost predicate Once(n: Node, s: string, d: Derivation, width: nat)
    requires WellFormed(n) && SevenBit(s)
  {
    exists slots :: Trail(Assemble(n), s, Config(0, 0, Blank(width)), {}, Word(Prefixed(n), d), slots)
  }

  lemma AssemblePlaced(n: Node)
    requires WellFormed(n)
    ensures WellFormed(Prefixed(n)) && Linked(Assemble(n)) && Placed(Assemble(n), 0, Code(Prefixed(n), 0, 0))
    ensures |Assemble(n)| == |Code(Prefixed(n), 0, 0)| + 1
  {
    hide Code;
    AssembleLinked(n);
    var code := Code(Prefixed(n), 0, 0);
    assert Assemble(n)[0..|code|] == code;
  }

  /** A trail spells a derivation. */
  lemma TrailReads(n: Node, s: string, width: nat, w: seq<bool>, slots: Slots) returns (d: Derivation)
    requires WellFormed(n) && SevenBit(s) && Trail(Assemble(n), s, Config(0, 0, Blank(width)), {}, w, slots)
    ensures Follow(Prefixed(n), s, d, 0).Some? && w == Word(Prefixed(n), d) && Once(n, s, d, width)
    ensures slots == Write(Blank(width), Captured(Prefixed(n), s, d, 0, 0))
  {
    hide Code, Assemble, Prefixed, Exec, Trail, Write, Captured, Word;
    AssemblePlaced(n);
    var p, c := Assemble(n), Config(0, 0, Blank(width));
    var e := TrailExec(p, s, c, {}, w, slots);
    assert e.pc == |p| - 1;
    var c', rest;
    d, c', rest := PathReads(Prefixed(n), p, 0, 0, s, c, w, e);
    MatchStops(p, s, c', rest, e);
    assert Word(Prefixed(n), d) + [] == Word(Prefixed(n), d);
    DerivationWalks(Prefixed(n), p, 0, 0, s, d, 0);
    assert Exec(p, s, Config(0, 0, Blank(width)), Word(Prefixed(n), d)) == Some(e);
  }

  /** The reported slots are those of the preferred derivation, among those that visit no instruction twice
      at one position. */
  lemma FirstOfAll(n: Node, s: string, width: nat) returns (d: Derivation)
    requires WellFormed(n) && SevenBit(s) && Search(n, s, width).Some?
    ensures Follow(Prefixed(n), s, d, 0).Some? && Once(n, s, d, width)
    ensures Search(n, s, width).value == Write(Blank(width), Captured(Prefixed(n), s, d, 0, 0))
    ensures forall other :: Follow(Prefixed(n), s, other, 0).Some? && Once(n, s, other, width) ==>
              Prefers(Prefixed(n), d, other)
  {
    hide Code, Assemble, Prefixed, Exec, Trail, Write, Captured, Word, Backtrack, Follow, Prefers, Preferred;
    AssemblePlaced(n);
    var p, c := Assemble(n), Config(0, 0, Blank(width));
    var choices := FirstPath(p, s, Blank(width));
    var slots := Search(n, s, width).value;
    SearchBacktracks(n, s, width);
    d := TrailReads(n, s, width, choices, slots);
    forall other | Follow(Prefixed(n), s, other, 0).Some? && Once(n, s, other, width)
      ensures Prefers(Prefixed(n), d, other)
    {
      var v :| Trail(p, s, c, {}, Word(Prefixed(n), other), v);
      assert Preferred(choices, Word(Prefixed(n), other));
      WordOrder(Prefixed(n), s, d, other, 0, [], []);
      assert Word(Prefixed(n), d) + [] == Word(Prefixed(n), d) &&
        Word(Prefixed(n), other) + [] == Word(Prefixed(n), other);
      if d == other { PrefersSelf(Prefixed(n), s, d, 0); }
    }
  }

  lemma SearchBacktracks(n: Node, s: string, width: nat)
    requires WellFormed(n) && SevenBit(s)
    ensures Linked(Assemble(n))
    ensures Search(n, s, width) == Backtrack(Assemble(n), s, 0, 0, Blank(width), FreshMemo(s)).found
  {
    AssembleLinked(n);
  }

  lemma PrefersSelf(n: Node, s: string, d: Derivation, i: nat)
    requires WellFormed(n) && Follow(n, s, d, i).Some?
    ensures Prefers(n, d, d)
  {
    PrefersTotal(n, s, d, d, i);
  }

  // ----- Steady trees -----

  /** A path from instruction `q`, of at least one step, that has come to `c` without consuming anything. */
  ghost predicate Behind(p: Program, s: string, q: nat, c: Config)
    requires SevenBit(s)
  {
    exists x: Config, v: seq<bool> :: x.pc == q && x.i == c.i && v != [] && Comes(p, s, x, v, c)
  }

  ghost predicate Comes(p: Program, s: string, x: Config, v: seq<bool>, c: Config)
    requires SevenBit(s)
  {
    x.i <= |s| && Exec(p, s, x, v).Some? && Exec(p, s, x, v).value.pc == c.pc && Exec(p, s, x, v).value.i == c.i
  }

  /** A path that ends before the match instruction never was there. */
  lemma {:induction false} ExecStays(p: Program, s: string, c: Config, v: seq<bool>)
    requires Linked(p) && SevenBit(s) && c.pc < |p| && Exec(p, s, c, v).Some? && Exec(p, s, c, v).value.pc < |p| - 1
    ensures Stays(p, s, c, v, 0, |p| - 1)
    decreases |v|
  {
    if v != [] { ExecStays(p, s, Step(p, s, c, v[0]).value, v[1..]); }
  }

  /** Without cycles, a path to the match instruction visits nothing twice. */
  lemma {:induction false} ExecTrail(p: Program, s: string, c: Config, path: set<nat>, w: seq<bool>, e: Config)
    requires Linked(p) && SevenBit(s) && NoLoop(p, s, 0, |p| - 1) && c.pc < |p| && c.i <= |s|
    requires Exec(p, s, c, w) == Some(e) && e.pc == |p| - 1
    requires forall q :: q in path ==> q < |p| - 1 && Behind(p, s, q, c)
    ensures Trail(p, s, c, path, w, e.slots)
    decreases |w|
  {
    hide Step, NoLoop, Behind;
    NotBehind(p, s, c, path);
    if c.pc < |p| - 1 {
      var x := Step(p, s, c, w[0]).value;
      StepLinked(p, s, c, w[0]);
      forall q | q in Visited(c, x, path) ensures q < |p| - 1 && Behind(p, s, q, x) {
        BehindNext(p, s, c, w[0], x, q);
      }
      ExecTrail(p, s, x, Visited(c, x, path), w[1..], e);
    } else {
      MatchStops(p, s, c, w, e);
    }
  }

  lemma StepLinked(p: Program, s: string, c: Config, b: bool)
    requires Linked(p) && SevenBit(s) && c.pc < |p| - 1 && c.i <= |s| && Step(p, s, c, b).Some?
    ensures Step(p, s, c, b).value.pc < |p| && c.i <= Step(p, s, c, b).value.i <= |s|
  {
    hide Accepts;
  }

  lemma NotBehind(p: Program, s: string, c: Config, path: set<nat>)
    requires Linked(p) && SevenBit(s) && NoLoop(p, s, 0, |p| - 1) && c.pc < |p|
    requires forall q :: q in path ==> q < |p| - 1 && Behind(p, s, q, c)
    ensures c.pc !in path
  {
    hide Exec, Stays, NoLoop;
    if c.pc in path {
      var x: Config, v: seq<bool> :| x.pc == c.pc && x.i == c.i && v != [] && Comes(p, s, x, v, c);
      ExecStays(p, s, x, v);
      NoCycleAt(p, s, x, v, 0, |p| - 1);
    }
  }

  lemma BehindNext(p: Program, s: string, c: Config, b: bool, x: Config, q: nat)
    requires SevenBit(s) && c.pc < |p| && c.i <= |s| && (p[c.pc].Split? || b) && Step(p, s, c, b) == Some(x)
    requires x.i == c.i && (q == c.pc || Behind(p, s, q, c))
    ensures Behind(p, s, q, x)
  {
    hide Exec, Step;
    OneStep(p, s, c, b, x);
    if Behind(p, s, q, c) {
      var y: Config, v: seq<bool> :| y.pc == q && y.i == c.i && v != [] && Comes(p, s, y, v, c);
      ExecJoin(p, s, y, v, [b]);
      ExecSlots(p, s, c, Exec(p, s, y, v).value, [b]);
      assert Comes(p, s, y, v + [b], x);
    } else {
      assert Comes(p, s, c, [b], x);
    }
  }

  lemma OneStep(p: Program, s: string, c: Config, b: bool, x: Config)
    requires SevenBit(s) && c.pc < |p| && (p[c.pc].Split? || b) && Step(p, s, c, b) == Some(x)
    ensures Exec(p, s, c, [b]) == Some(x)
  {
    hide Step;
    assert [b][1..] == [];
  }

  lemma PrefixedSteady(n: Node)
    requires Steady(n)
    ensures Steady(Prefixed(n))
  {
    assert Steady(SEARCH) && Steady(Capture(n));
  }

  /** Every derivation of a steady tree visits no instruction twice at one position. */
  lemma SteadyOnce(n: Node, s: string, d: Derivation, width: nat)
    requires WellFormed(n) && Steady(n) && SevenBit(s) && Follow(Prefixed(n), s, d, 0).Some?
    ensures Once(n, s, d, width)
  {
    hide Code, Assemble, Prefixed, Exec, Trail, Write, Captured, Word, Follow, NoLoop, Linked;
    AssemblePlaced(n);
    PrefixedSteady(n);
    var p := Assemble(n);
    CodePart(Prefixed(n), p, 0, 0, s);
    DerivationWalks(Prefixed(n), p, 0, 0, s, d, 0);
    var slots := Write(Blank(width), Captured(Prefixed(n), s, d, 0, 0));
    var e := Config(|p| - 1, Follow(Prefixed(n), s, d, 0).value, slots);
    assert Exec(p, s, Config(0, 0, Blank(width)), Word(Prefixed(n), d)) == Some(e);
    ExecTrail(p, s, Config(0, 0, Blank(width)), {}, Word(Prefixed(n), d), e);
  }

  // ----- The search prefix -----

  /** Some passes over a single character each. */
  function Leaves(k: nat): Passes
  {
    if k == 0 then Over else Pass(Leaf, Leaves(k - 1))
  }

  /** The derivation of the compiled tree: the characters before the match, and then the match. */
  function WholeWay(n: Node, i: nat, d: Derivation): Derivation
  {
    if NodeIsAnchored(n) then Inner(d) else Both(Several(Leaves(i)), Inner(d))
  }

  lemma {:induction false} LeavesFollow(s: string, k: nat, i: nat, h: nat)
    requires i + k <= |s|
    ensures WellFormed(SEARCH) && FollowPasses(SEARCH, s, Leaves(k), h, i) == Some(i + k)
    decreases k
  {
    if k > 0 { LeavesFollow(s, k - 1, i + 1, h + 1); }
  }

  lemma {:induction false} SearchLeaves(s: string, ps: Passes, i: nat, h: nat)
    requires i <= |s| && WellFormed(SEARCH) && FollowPasses(SEARCH, s, ps, h, i).Some?
    ensures
      var j := FollowPasses(SEARCH, s, ps, h, i).value;
      i <= j <= |s| && ps == Leaves(j - i)
    decreases ps
  {
    if ps.Pass? { SearchLeaves(s, ps.rest, i + 1, h + 1); }
  }

  /** Fewer characters before the match are preferred. */
  lemma {:induction false} LeavesOrder(a: nat, b: nat)
    ensures PrefersPasses(SEARCH, Leaves(a), Leaves(b)) <==> a <= b
    ensures Leaves(a) == Leaves(b) <==> a == b
    decreases a
  {
    if a > 0 && b > 0 { LeavesOrder(a - 1, b - 1); }
  }

  /** A match of the tree that the search is entitled to: a start and a derivation from there. */
  ghost predicate Candidate(n: Node, s: string, i: nat, d: Derivation)
    requires WellFormed(n)
  {
    i <= |s| && (NodeIsAnchored(n) ==> i == 0) && Follow(n, s, d, i).Some?
  }

  lemma WholeFollows(n: Node, s: string, i: nat, d: Derivation)
    requires WellFormed(n) && Candidate(n, s, i, d)
    ensures WellFormed(Prefixed(n)) && Follow(Prefixed(n), s, WholeWay(n, i, d), 0) == Follow(n, s, d, i)
  {
    assert WellFormed(Capture(n));
    if !NodeIsAnchored(n) { LeavesFollow(s, i, 0, 0); }
  }

  lemma WholeIs(n: Node, s: string, whole: Derivation) returns (i: nat, d: Derivation)
    requires WellFormed(n) && WellFormed(Prefixed(n)) && Follow(Prefixed(n), s, whole, 0).Some?
    ensures Candidate(n, s, i, d) && whole == WholeWay(n, i, d)
  {
    if NodeIsAnchored(n) {
      i, d := 0, whole.inner;
    } else {
      SearchLeaves(s, whole.first.passes, 0, 0);
      i, d := FollowPasses(SEARCH, s, whole.first.passes, 0, 0).value, whole.second.inner;
    }
  }

  lemma WholeOrder(n: Node, i: nat, d: Derivation, i': nat, d': Derivation)
    requires Prefers(Prefixed(n), WholeWay(n, i, d), WholeWay(n, i', d')) && (NodeIsAnchored(n) ==> i == i')
    ensures i < i' || (i == i' && Prefers(n, d, d'))
  {
    LeavesOrder(i, i');
  }

  /** The slots of a match: its two ends, and those of its groups. */
  function SlotsOf(n: Node, s: string, i: nat, d: Derivation, width: nat): Slots
    requires WellFormed(n) && Follow(n, s, d, i).Some?
  {
    Write(Blank(width), map[0 := i] + Captured(n, s, d, 1, i) + map[1 := Follow(n, s, d, i).value])
  }

  lemma SearchCaptures(s: string, ps: Passes, nc: nat, i: nat, h: nat)
    requires WellFormed(SEARCH) && FollowPasses(SEARCH, s, ps, h, i).Some?
    ensures CapturedPasses(SEARCH, s, ps, nc, i) == map[]
    decreases ps
  {
    if ps.Pass? { SearchCaptures(s, ps.rest, nc, i + 1, h + 1); }
  }

  lemma WholeSlots(n: Node, s: string, i: nat, d: Derivation, width: nat)
    requires WellFormed(n) && Candidate(n, s, i, d) && WellFormed(Prefixed(n))
    ensures Write(Blank(width), Captured(Prefixed(n), s, WholeWay(n, i, d), 0, 0)) == SlotsOf(n, s, i, d, width)
  {
    hide Write, CapturedPasses, FollowPasses, LeafEnd, WellFormed;
    var whole, own := WholeWay(n, i, d), map[0 := i] + Captured(n, s, d, 1, i) + map[1 := Follow(n, s, d, i).value];
    OwnSlots(n, s, i, d);
    if !NodeIsAnchored(n) {
      LeavesFollow(s, i, 0, 0);
      SearchCaptures(s, Leaves(i), 0, 0, 0);
      assert CapturesAfter(SEARCH, 0) == 0;
      assert Captured(Prefixed(n), s, whole, 0, 0) == map[] + own;
      assert map[] + own == own;
    }
  }

  lemma OwnSlots(n: Node, s: string, i: nat, d: Derivation)
    requires WellFormed(n) && Follow(n, s, d, i).Some?
    ensures WellFormed(Capture(n)) && Captured(Capture(n), s, Inner(d), 0, i) ==
      map[0 := i] + Captured(n, s, d, 1, i) + map[1 := Follow(n, s, d, i).value]
  {
  }

  // ----- The match that is reported -----

  /** Preferred to the other: it starts further left, or at the same place and its derivation is preferred. */
  predicate Beats(n: Node, i: nat, d: Derivation, i': nat, d': Derivation)
  {
    i < i' || (i == i' && Prefers(n, d, d'))
  }

  /** The match that a run reports: preferred to every other that visits no instruction twice at one
      position; and, if the tree is steady, to every other there is. */
  ghost predicate Chosen(n: Node, s: string, width: nat, i: nat, d: Derivation)
    requires WellFormed(n) && SevenBit(s)
  {
    && Candidate(n, s, i, d)
    && (forall i': nat, d' ::
          Candidate(n, s, i', d') && Once(n, s, WholeWay(n, i', d'), width) ==> Beats(n, i, d, i', d'))
    && (Steady(n) ==> forall i': nat, d' :: Candidate(n, s, i', d') ==> Beats(n, i, d, i', d'))
  }

  /** A run reports the captures of the match that is preferred to all others. */
  lemma FirstDerivation(n: Node, s: string, width: nat) returns (i: nat, d: Derivation)
    requires WellFormed(n) && SevenBit(s) && Search(n, s, width).Some?
    ensures Chosen(n, s, width, i, d) && Search(n, s, width).value == SlotsOf(n, s, i, d, width)
  {
    hide Search, Prefixed, Follow, Captured, Write, Prefers, Once, WholeWay, SlotsOf;
    AssemblePlaced(n);
    var whole := FirstOfAll(n, s, width);
    i, d := WholeIs(n, s, whole);
    WholeSlots(n, s, i, d, width);
    forall i': nat, d' | Candidate(n, s, i', d') && (Once(n, s, WholeWay(n, i', d'), width) || Steady(n))
      ensures Beats(n, i, d, i', d')
    {
      WholeFollows(n, s, i', d');
      if Steady(n) { SteadyOnce(n, s, WholeWay(n, i', d'), width); }
      WholeOrder(n, i, d, i', d');
    }
  }
}
