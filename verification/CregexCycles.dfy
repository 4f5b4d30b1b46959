/** Where the body of every unbounded quantifier consumes a character, no path comes back to an instruction at
    the same position: the stamps of the machine (src/cregex_vm.c:45-47) then cut off nothing but repetitions of
    what was tried from the same place. */
module CregexCycles {
  import opened Wrappers
  import opened Cregex
  import opened CregexSemantics
  import opened CregexBacktrack
  import opened CregexPaths
  import opened CregexCode
  import opened CregexCodeCorrect
  import opened CregexDerivation
  import opened CregexWords
  import opened CregexReadBack

  // ----- Trees -----

  /** The tree may match the empty string; it certainly does not if this is false. */
  predicate Nullable(n: Node)
  {
    match n
    case Character(_) => false
    case AnyCharacter => false
    case CharacterClass(_, _, _) => false
    case Concatenation(left, right) => Nullable(left) && Nullable(right)
    case Alternation(left, right) => Nullable(left) || Nullable(right)
    case Quantifier(nmin, _, _, q) => nmin == 0 || Nullable(q)
    case Capture(q) => Nullable(q)
    case _ => true
  }

  /** No unbounded quantifier stands over a tree that may match the empty string. */
  predicate Steady(n: Node)
  {
    match n
    case Concatenation(left, right) => Steady(left) && Steady(right)
    case Alternation(left, right) => Steady(left) && Steady(right)
    case Quantifier(_, nmax, _, q) => Steady(q) && (nmax == -1 ==> !Nullable(q))
    case Capture(q) => Steady(q)
    case _ => true
  }

  lemma {:induction false} ConsumesSome(n: Node, s: string, d: Derivation, i: nat)
    requires WellFormed(n) && !Nullable(n) && i <= |s| && Follow(n, s, d, i).Some?
    ensures i < Follow(n, s, d, i).value
    decreases d
  {
    match d
    case Leaf =>
    case Both(first, second) =>
      var k := Follow(n.left, s, first, i).value;
      FollowForward(n.left, s, first, i);
      FollowForward(n.right, s, second, k);
      if !Nullable(n.left) { ConsumesSome(n.left, s, first, i); } else { ConsumesSome(n.right, s, second, k); }
    case Either(left, chosen) => ConsumesSome(if left then n.left else n.right, s, chosen, i);
    case Inner(inner) => ConsumesSome(n.captured, s, inner, i);
    case Several(passes) =>
      var made, m := passes.made, Follow(n.quantified, s, passes.made, i).value;
      ConsumesSome(n.quantified, s, made, i);
      FollowForward(n.quantified, s, made, i);
      PassesForward(n, s, passes.rest, 1, m);
  }

  // ----- Cycles -----

  /** The path stays among the instructions from `lo` up to `hi`. */
  ghost predicate Stays(p: Program, s: string, c: Config, w: seq<bool>, lo: nat, hi: nat)
    requires SevenBit(s)
    decreases |w|
  {
    && lo <= c.pc < hi
    && (w != [] ==>
          && c.pc < |p| && (p[c.pc].Split? || w[0]) && Step(p, s, c, w[0]).Some?
          && Stays(p, s, Step(p, s, c, w[0]).value, w[1..], lo, hi))
  }

  /** The path comes back to the instruction and position it started from. */
  ghost predicate Cycle(p: Program, s: string, c: Config, w: seq<bool>)
    requires SevenBit(s)
  {
    && w != [] && c.i <= |s|
    && var e := Exec(p, s, c, w);
       e.Some? && e.value.pc == c.pc && e.value.i == c.i
  }

  ghost predicate NoLoop(p: Program, s: string, lo: nat, hi: nat)
    requires SevenBit(s)
  {
    forall c, w :: Stays(p, s, c, w, lo, hi) ==> !Cycle(p, s, c, w)
  }

  lemma {:induction false} StaysExec(p: Program, s: string, c: Config, w: seq<bool>, lo: nat, hi: nat)
    requires SevenBit(s) && Stays(p, s, c, w, lo, hi)
    ensures Exec(p, s, c, w).Some? && lo <= Exec(p, s, c, w).value.pc < hi
    decreases |w|
  {
    hide Step;
    if w != [] { StaysExec(p, s, Step(p, s, c, w[0]).value, w[1..], lo, hi); }
  }

  lemma StaysNext(p: Program, s: string, c: Config, w: seq<bool>, lo: nat, hi: nat)
    requires SevenBit(s) && Stays(p, s, c, w, lo, hi) && w != []
    ensures c.pc < |p| && Step(p, s, c, w[0]).Some? && lo <= Step(p, s, c, w[0]).value.pc < hi
  {
    hide Step;
  }

  lemma NoCycleAt(p: Program, s: string, c: Config, w: seq<bool>, lo: nat, hi: nat)
    requires SevenBit(s) && NoLoop(p, s, lo, hi) && Stays(p, s, c, w, lo, hi)
    ensures !Cycle(p, s, c, w)
  {
  }

  /** Nothing leads from the second part back into the first. */
  ghost predicate Onward(p: Program, s: string, lo: nat, mid: nat, hi: nat)
    requires SevenBit(s)
  {
    forall c: Config, b: bool :: mid <= c.pc < hi && c.pc < |p| && Step(p, s, c, b).Some? ==>
      !(lo <= Step(p, s, c, b).value.pc < mid)
  }

  lemma {:induction false} StaysAbove(p: Program, s: string, c: Config, w: seq<bool>, lo: nat, mid: nat, hi: nat)
    requires SevenBit(s) && Stays(p, s, c, w, lo, hi) && Onward(p, s, lo, mid, hi) && mid <= c.pc
    ensures Stays(p, s, c, w, mid, hi)
    decreases |w|
  {
    hide Step;
    if w != [] { StaysAbove(p, s, Step(p, s, c, w[0]).value, w[1..], lo, mid, hi); }
  }

  lemma {:induction false} StaysBelow(p: Program, s: string, c: Config, w: seq<bool>, lo: nat, mid: nat, hi: nat)
    requires SevenBit(s) && Stays(p, s, c, w, lo, hi) && Onward(p, s, lo, mid, hi) && c.pc < mid
    requires Exec(p, s, c, w).Some? && Exec(p, s, c, w).value.pc < mid
    ensures Stays(p, s, c, w, lo, mid)
    decreases |w|
  {
    hide Step, Onward;
    if w != [] {
      var e := Step(p, s, c, w[0]).value;
      if e.pc >= mid {
        StaysAbove(p, s, e, w[1..], lo, mid, hi);
        StaysExec(p, s, e, w[1..], mid, hi);
      } else {
        StaysBelow(p, s, e, w[1..], lo, mid, hi);
      }
    }
  }

  lemma TwoParts(p: Program, s: string, lo: nat, mid: nat, hi: nat)
    requires SevenBit(s) && NoLoop(p, s, lo, mid) && NoLoop(p, s, mid, hi)
    requires Onward(p, s, lo, mid, hi) && lo <= mid <= hi
    ensures NoLoop(p, s, lo, hi)
  {
    hide Stays, Onward, Exec;
    forall c, w | Stays(p, s, c, w, lo, hi) ensures !Cycle(p, s, c, w) {
      StaysExec(p, s, c, w, lo, hi);
      if c.pc >= mid {
        StaysAbove(p, s, c, w, lo, mid, hi);
      } else if Cycle(p, s, c, w) {
        StaysBelow(p, s, c, w, lo, mid, hi);
      }
    }
  }

  lemma NonePart(p: Program, s: string, lo: nat)
    requires SevenBit(s)
    ensures NoLoop(p, s, lo, lo)
  {
    hide Exec;
  }

  /** A single instruction that does not lead to itself. */
  lemma OnePart(p: Program, s: string, at: nat)
    requires SevenBit(s) && at < |p|
    requires p[at].Split? ==> p[at].first != at && p[at].second != at
    requires p[at].Jump? ==> p[at].target != at
    ensures NoLoop(p, s, at, at + 1)
  {
    hide Exec, Accepts;
    forall c, w | Stays(p, s, c, w, at, at + 1) ensures !Cycle(p, s, c, w) {
      if w != [] {
        StaysNext(p, s, c, w, at, at + 1);
      }
    }
  }

  lemma FragmentOnward(p: Program, s: string, lo: nat, mid: nat, hi: nat)
    requires SevenBit(s) && Fragment(p, mid, hi)
    ensures Onward(p, s, lo, mid, hi)
  {
    hide Step, Fragment;
    forall c: Config, b: bool | mid <= c.pc < hi && c.pc < |p| && Step(p, s, c, b).Some?
      ensures !(lo <= Step(p, s, c, b).value.pc < mid)
    {
      StepInside(p, s, mid, hi, c, b);
    }
  }

  lemma OneOnward(p: Program, s: string, lo: nat, at: nat)
    requires SevenBit(s) && at < |p| && !p[at].Split? && (p[at].Jump? ==> !(lo <= p[at].target < at))
    ensures Onward(p, s, lo, at, at + 1)
  {
    hide Accepts;
  }

  // ----- Loops -----

  lemma {:induction false} ExecSlots(p: Program, s: string, c: Config, x: Config, w: seq<bool>)
    requires SevenBit(s) && c.pc == x.pc && c.i == x.i && Exec(p, s, c, w).Some?
    ensures
      var a, b := Exec(p, s, c, w), Exec(p, s, x, w);
      b.Some? && a.value.pc == b.value.pc && a.value.i == b.value.i
    decreases |w|
  {
    hide Accepts;
    if w != [] { ExecSlots(p, s, Step(p, s, c, w[0]).value, Step(p, s, x, w[0]).value, w[1..]); }
  }

  lemma {:induction false} ExecForward(p: Program, s: string, c: Config, w: seq<bool>)
    requires SevenBit(s) && c.i <= |s| && Exec(p, s, c, w).Some?
    ensures c.i <= Exec(p, s, c, w).value.i <= |s|
    decreases |w|
  {
    hide Accepts;
    if w != [] { ExecForward(p, s, Step(p, s, c, w[0]).value, w[1..]); }
  }

  /** The stretch from `lo'` to `hi'` is the one from `lo` to `hi` without its first or last instruction. */
  predicate AllBut(lo: nat, hi: nat, lo': nat, hi': nat, at: nat)
  {
    lo < hi && ((at == lo && lo' == lo + 1 && hi' == hi) || (at == hi - 1 && lo' == lo && hi' == hi - 1))
  }

  /** Either the path never is at `at`, or it is for the first time after `u`. */
  lemma {:induction false} Meets(p: Program, s: string, c: Config, w: seq<bool>, lo: nat, hi: nat, lo': nat, hi': nat,
                                 at: nat)
    returns (hit: bool, u: seq<bool>, v: seq<bool>)
    requires SevenBit(s) && Stays(p, s, c, w, lo, hi) && AllBut(lo, hi, lo', hi', at)
    ensures !hit ==> Stays(p, s, c, w, lo', hi')
    ensures hit ==>
      && w == u + v && Exec(p, s, c, u).Some? && Exec(p, s, c, u).value.pc == at
      && Stays(p, s, Exec(p, s, c, u).value, v, lo, hi) && (u != [] ==> c.pc != at)
    decreases |w|
  {
    hide Step;
    hit, u, v := c.pc == at, [], w;
    if !hit && w != [] {
      var e := Step(p, s, c, w[0]).value;
      hit, u, v := Meets(p, s, e, w[1..], lo, hi, lo', hi', at);
      if hit {
        assert w == [w[0]] + (u + v) == [w[0]] + u + v;
        u := [w[0]] + u;
      }
    }
  }

  /** From the instruction `at` it can only go on inside at `body`. */
  ghost predicate Enters(p: Program, s: string, lo: nat, hi: nat, at: nat, body: nat)
    requires SevenBit(s) && at < |p|
  {
    forall c: Config, b: bool ::
      c.pc == at && Step(p, s, c, b).Some? && lo <= Step(p, s, c, b).value.pc < hi ==>
        Step(p, s, c, b) == Some(c.(pc := body))
  }

  /** A loop whose body consumes: every way round goes through the instruction `at`, from where it can only go
      on inside through the body. */
  lemma LoopPart(p: Program, s: string, lo: nat, hi: nat, lo': nat, hi': nat, at: nat, q: Node, body: nat, nc: nat)
    requires SevenBit(s) && WellFormed(q) && !Nullable(q) && NoLoop(p, s, lo', hi')
    requires lo <= at < hi && at < |p| && AllBut(lo, hi, lo', hi', at)
    requires Placed(p, body, Code(q, body, nc)) && Outside(at, body, |Code(q, body, nc)|)
    requires Enters(p, s, lo, hi, at, body)
    ensures NoLoop(p, s, lo, hi)
  {
    hide Exec, Stays, Placed, Code, Step;
    forall c, w | Stays(p, s, c, w, lo, hi) ensures !Cycle(p, s, c, w) {
      var hit, u, v := Meets(p, s, c, w, lo, hi, lo', hi', at);
      if hit { WayRound(p, s, lo, hi, at, q, body, nc, c, u, v); }
    }
  }

  lemma WayRound(p: Program, s: string, lo: nat, hi: nat, at: nat, q: Node, body: nat, nc: nat, c: Config, u: seq<bool>,
                 v: seq<bool>)
    requires SevenBit(s) && WellFormed(q) && !Nullable(q) && at < |p|
    requires Placed(p, body, Code(q, body, nc)) && Outside(at, body, |Code(q, body, nc)|)
    requires Enters(p, s, lo, hi, at, body)
    requires Exec(p, s, c, u).Some? && Exec(p, s, c, u).value.pc == at && (u != [] ==> c.pc != at)
    requires Stays(p, s, Exec(p, s, c, u).value, v, lo, hi)
    ensures !Cycle(p, s, c, u + v)
  {
    hide Placed, Code, Step, Word, Follow;
    var x := Exec(p, s, c, u).value;
    ExecJoin(p, s, c, u, v);
    assert v == [] ==> u + v == u;
    if v != [] && Cycle(p, s, c, u + v) {
      ExecForward(p, s, c, u);
      var e := Exec(p, s, x, v).value;
      ExecSlots(p, s, c, e, u);
      ExecJoin(p, s, x, v, u);
      var y := Exec(p, s, x, v + u).value;
      var x1, t := x.(pc := body), (v + u)[1..];
      assert (v + u)[0] == v[0] && Step(p, s, x, v[0]) == Some(x1) && Exec(p, s, x1, t) == Some(y);
      var d, c', rest := PathReads(q, p, body, nc, s, x1, t, y);
      Returned(q, p, s, d, x.i, c', rest);
    }
  }

  /** A path through a body that consumes does not end where it started. */
  lemma Returned(q: Node, p: Program, s: string, d: Derivation, i: nat, c: Config, rest: seq<bool>)
    requires SevenBit(s) && WellFormed(q) && !Nullable(q) && i <= |s| && Follow(q, s, d, i) == Some(c.i)
    requires Exec(p, s, c, rest).Some?
    ensures Exec(p, s, c, rest).value.i > i
  {
    hide Exec, Follow;
    ConsumesSome(q, s, d, i);
    FollowForward(q, s, d, i);
    ExecForward(p, s, c, rest);
  }

  // ----- The code of a tree -----

  lemma SplitPart(p: Program, s: string, at: nat, a: nat, b: nat)
    requires SevenBit(s) && at < |p| && (p[at] == Split(a, b) || p[at] == Split(b, a)) && a != at && b != at
    ensures NoLoop(p, s, at, at + 1)
  {
    OnePart(p, s, at);
  }

  lemma {:induction false} ConcatenationPart(n: Node, p: Program, base: nat, nc: nat, s: string)
    requires WellFormed(n) && n.Concatenation? && Steady(n) && SevenBit(s) && Placed(p, base, Code(n, base, nc))
    ensures NoLoop(p, s, base, base + |Code(n, base, nc)|)
    decreases n, 0
  {
    hide NoLoop, Placed, Code, CapturesAfter, Enclosed, Onward;
    ConcatenationCode(n, base, nc);
    var l, mc := Code(n.left, base, nc), CapturesAfter(n.left, nc);
    var r := Code(n.right, base + |l|, mc);
    PlacedParts(p, base, l, r);
    CodePart(n.left, p, base, nc, s);
    CodePart(n.right, p, base + |l|, mc, s);
    Joined(n.right, p, base, base + |l|, mc, s);
  }

  /** Code after something that has no loop. */
  lemma Joined(n: Node, p: Program, lo: nat, base: nat, nc: nat, s: string)
    requires WellFormed(n) && SevenBit(s) && Placed(p, base, Code(n, base, nc)) && lo <= base
    requires NoLoop(p, s, lo, base) && NoLoop(p, s, base, base + |Code(n, base, nc)|)
    ensures NoLoop(p, s, lo, base + |Code(n, base, nc)|)
  {
    hide NoLoop, Placed, Code, Enclosed, Onward;
    CodeEnclosed(n, base, nc);
    PlacedFragment(p, base, Code(n, base, nc));
    FragmentOnward(p, s, lo, base, base + |Code(n, base, nc)|);
    TwoParts(p, s, lo, base, base + |Code(n, base, nc)|);
  }

  lemma {:induction false} AlternationPart(n: Node, p: Program, base: nat, nc: nat, s: string)
    requires WellFormed(n) && n.Alternation? && Steady(n) && SevenBit(s) && Placed(p, base, Code(n, base, nc))
    ensures NoLoop(p, s, base, base + |Code(n, base, nc)|)
    decreases n, 0
  {
    hide NoLoop, Placed, Code, CapturesAfter, Enclosed, Onward;
    AlternationCode(n, base, nc);
    PlacedFits(p, base, Code(n, base, nc));
    var l, mc := Code(n.left, base + 1, nc), CapturesAfter(n.left, nc);
    var jump := base + 1 + |l|;
    var r := Code(n.right, jump + 1, mc);
    AlternativesParts(p, base, l, r);
    SplitPart(p, s, base, base + 1, jump + 1);
    CodePart(n.left, p, base + 1, nc, s);
    Joined(n.left, p, base, base + 1, nc, s);
    OnePart(p, s, jump);
    OneOnward(p, s, base, jump);
    TwoParts(p, s, base, jump, jump + 1);
    CodePart(n.right, p, jump + 1, mc, s);
    Joined(n.right, p, base, jump + 1, mc, s);
  }

  lemma {:induction false} CapturePart(n: Node, p: Program, base: nat, nc: nat, s: string)
    requires WellFormed(n) && n.Capture? && Steady(n) && SevenBit(s) && Placed(p, base, Code(n, base, nc))
    ensures NoLoop(p, s, base, base + |Code(n, base, nc)|)
    decreases n, 0
  {
    hide NoLoop, Placed, Code, Enclosed, Onward;
    CaptureCode(n, base, nc);
    var body := Code(n.captured, base + 1, nc + 1);
    var last := base + 1 + |body|;
    PlacedFits(p, base, Saved(body, nc));
    SavedParts(p, base, body, nc);
    OnePart(p, s, base);
    CodePart(n.captured, p, base + 1, nc + 1, s);
    Joined(n.captured, p, base, base + 1, nc + 1, s);
    OnePart(p, s, last);
    OneOnward(p, s, base, last);
    TwoParts(p, s, base, last, last + 1);
  }

  lemma LeafPart(n: Node, p: Program, base: nat, nc: nat, s: string)
    requires WellFormed(n) && IsLeaf(n) && SevenBit(s) && Placed(p, base, Code(n, base, nc))
    ensures NoLoop(p, s, base, base + |Code(n, base, nc)|)
  {
    hide NoLoop;
    LeafIs(n, base, nc);
    if n.Epsilon? {
      NonePart(p, s, base);
    } else {
      PlacedAt(p, base, LeafCode(n), 0);
      OnePart(p, s, base);
    }
  }

  /** Required copies. */
  lemma {:induction false} CopiesPart(q: Node, p: Program, base: nat, nc: nat, s: string, k: nat)
    requires WellFormed(q) && Steady(q) && SevenBit(s) && Placed(p, base, Copies(CodeOf(q, nc), base, k))
    ensures NoLoop(p, s, base, base + |Copies(CodeOf(q, nc), base, k)|)
    decreases q, 2, k
  {
    hide NoLoop, Placed, Code;
    if k == 0 {
      NonePart(p, s, base);
    } else {
      var c := Copies(CodeOf(q, nc), base, k - 1);
      PlacedParts(p, base, c, CodeOf(q, nc)(base + |c|));
      CopiesPart(q, p, base, nc, s, k - 1);
      CodePart(q, p, base + |c|, nc, s);
      Joined(q, p, base, base + |c|, nc, s);
    }
  }

  /** A copy that can be skipped. */
  lemma {:induction false} OptionPart(q: Node, p: Program, at: nat, nc: nat, s: string, greedy: bool)
    requires WellFormed(q) && Steady(q) && SevenBit(s) && Placed(p, at, OptionCopy(CodeOf(q, nc), at, greedy))
    ensures NoLoop(p, s, at, at + |OptionCopy(CodeOf(q, nc), at, greedy)|)
    ensures Fragment(p, at, at + |OptionCopy(CodeOf(q, nc), at, greedy)|)
    decreases q, 2, 0
  {
    hide NoLoop, Placed, Code, Enclosed, AlwaysEnclosed, Fragment;
    var g := CodeOf(q, nc);
    OptionParts(g, p, at, greedy);
    CodeOfEnclosed(q, nc);
    OptionCopyEnclosed(g, at, greedy);
    PlacedFragment(p, at, OptionCopy(g, at, greedy));
    SplitPart(p, s, at, at + 1, at + 1 + |g(at + 1)|);
    CodePart(q, p, at + 1, nc, s);
    Joined(q, p, at, at + 1, nc, s);
  }

  lemma {:induction false} OptionsPart(q: Node, p: Program, lo: nat, base: nat, nc: nat, s: string, greedy: bool,
                                       k: nat)
    requires WellFormed(q) && Steady(q) && SevenBit(s) && Placed(p, base, Options(CodeOf(q, nc), base, greedy, k))
    requires lo <= base && NoLoop(p, s, lo, base)
    ensures NoLoop(p, s, lo, base + |Options(CodeOf(q, nc), base, greedy, k)|)
    decreases q, 3, k
  {
    hide NoLoop, Placed, Code, OptionCopy, Onward, Fragment;
    if k > 0 {
      var g := CodeOf(q, nc);
      var c := Options(g, base, greedy, k - 1);
      var copy := OptionCopy(g, base + |c|, greedy);
      PlacedParts(p, base, c, copy);
      OptionsPart(q, p, lo, base, nc, s, greedy, k - 1);
      OptionPart(q, p, base + |c|, nc, s, greedy);
      FragmentOnward(p, s, lo, base + |c|, base + |c| + |copy|);
      TwoParts(p, s, lo, base + |c|, base + |c| + |copy|);
    }
  }

  lemma {:induction false} StarPart(q: Node, p: Program, base: nat, nc: nat, s: string, greedy: bool)
    requires WellFormed(q) && Steady(q) && !Nullable(q) && SevenBit(s)
    requires Placed(p, base, StarLoop(CodeOf(q, nc), base, greedy))
    ensures NoLoop(p, s, base, base + |StarLoop(CodeOf(q, nc), base, greedy)|)
    decreases q, 2, 0
  {
    hide NoLoop, Placed, Code, StarLoop, Onward;
    var g := CodeOf(q, nc);
    StarParts(g, p, base, greedy);
    var mid := base + 1 + |g(base + 1)|;
    CodePart(q, p, base + 1, nc, s);
    OnePart(p, s, mid);
    OneOnward(p, s, base + 1, mid);
    TwoParts(p, s, base + 1, mid, mid + 1);
    LoopPart(p, s, base, mid + 1, base + 1, mid + 1, base, q, base + 1, nc);
  }

  lemma {:induction false} PlusPart(q: Node, p: Program, base: nat, nc: nat, s: string, greedy: bool, k: nat)
    requires WellFormed(q) && Steady(q) && !Nullable(q) && SevenBit(s) && k > 0
    requires Placed(p, base, PlusLoop(CodeOf(q, nc), base, greedy, k))
    ensures NoLoop(p, s, base, base + |PlusLoop(CodeOf(q, nc), base, greedy, k)|)
    decreases q, 3, 0
  {
    hide NoLoop, Placed, Code, Onward, Branch, PlusAt, PlusLoop, Copies, Fragment, Enclosed;
    var g := CodeOf(q, nc);
    var lo, split := PlusAt(g, base, k, k - 1), base + |Copies(g, base, k)|;
    PlusParts(g, p, base, greedy, k, k - 1);
    PlusCopies(g, p, base, greedy, k);
    CopiesPart(q, p, base, nc, s, k - 1);
    CodePart(q, p, lo, nc, s);
    CodeEnclosed(q, lo, nc);
    PlacedFragment(p, lo, Code(q, lo, nc));
    LoopSplit(p, s, lo, split, greedy);
    LoopPart(p, s, lo, split + 1, lo, split, split, q, lo, nc);
    FragmentOnward(p, s, base, lo, split + 1);
    TwoParts(p, s, base, lo, split + 1);
  }

  lemma PlusCopies(g: Generator, p: Program, base: nat, greedy: bool, k: nat)
    requires k > 0 && Placed(p, base, PlusLoop(g, base, greedy, k))
    ensures Placed(p, base, Copies(g, base, k - 1)) && PlusAt(g, base, k, k - 1) == base + |Copies(g, base, k - 1)|
  {
    hide Placed, Branch;
    var c := Copies(g, base, k);
    PlacedParts(p, base, c, [Branch(greedy, base + |Copies(g, base, k - 1)|, base + |c| + 1)]);
    PlacedParts(p, base, Copies(g, base, k - 1), g(base + |Copies(g, base, k - 1)|));
  }

  /** The split at the end of a loop goes back to its start or out of it. */
  lemma LoopSplit(p: Program, s: string, lo: nat, split: nat, greedy: bool)
    requires SevenBit(s) && lo <= split < |p| && p[split] == Branch(greedy, lo, split + 1) && Fragment(p, lo, split)
    ensures Fragment(p, lo, split + 1)
    ensures Enters(p, s, lo, split + 1, split, lo)
  {
    forall pc | lo <= pc < split + 1 ensures Contained(p[pc], lo, split + 1) {
      if pc < split { assert Contained(p[pc], lo, split); }
    }
  }

  lemma {:induction false} QuantifierPart(n: Node, p: Program, base: nat, nc: nat, s: string)
    requires WellFormed(n) && n.Quantifier? && Steady(n) && SevenBit(s) && Placed(p, base, Code(n, base, nc))
    ensures NoLoop(p, s, base, base + |Code(n, base, nc)|)
    decreases n, 0
  {
    hide NoLoop, Placed, Code, StarLoop, PlusLoop;
    QuantifierCode(n, base, nc);
    var q, g := n.quantified, CodeOf(n.quantified, nc);
    if n.nmax == -1 {
      if n.nmin == 0 { StarPart(q, p, base, nc, s, n.greedy); } else { PlusPart(q, p, base, nc, s, n.greedy, n.nmin); }
    } else {
      var c := Copies(g, base, n.nmin);
      if n.nmax > n.nmin { PlacedParts(p, base, c, Options(g, base + |c|, n.greedy, n.nmax - n.nmin)); }
      CopiesPart(q, p, base, nc, s, n.nmin);
      if n.nmax > n.nmin { OptionsPart(q, p, base, base + |c|, nc, s, n.greedy, n.nmax - n.nmin); }
    }
  }

  /** The code of a steady tree has no cycles, wherever it is placed. */
  lemma {:induction false} CodePart(n: Node, p: Program, base: nat, nc: nat, s: string)
    requires WellFormed(n) && Steady(n) && SevenBit(s) && Placed(p, base, Code(n, base, nc))
    ensures NoLoop(p, s, base, base + |Code(n, base, nc)|)
    decreases n, 1
  {
    hide NoLoop, Placed, Code;
    match n
    case Concatenation(_, _) => ConcatenationPart(n, p, base, nc, s);
    case Alternation(_, _) => AlternationPart(n, p, base, nc, s);
    case Quantifier(_, _, _, _) => QuantifierPart(n, p, base, nc, s);
    case Capture(_) => CapturePart(n, p, base, nc, s);
    case _ => LeafPart(n, p, base, nc, s);
  }
}
