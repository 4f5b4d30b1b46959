/** Derivations of a tree and paths through its code are the same thing: the choices of a derivation, spelled
    out for the machine, lead through the code and save what the derivation captures; and every path through
    the code spells a derivation. */
module CregexWords {
  import opened Wrappers
  import opened Cregex
  import opened CregexSemantics
  import opened CregexBacktrack
  import opened CregexPaths
  import opened CregexCode
  import opened CregexCodeCorrect
  import opened CregexDerivation

  // ----- Execution by choices -----

  /** Where the choices lead. At an instruction that is not a split the only choice is `true`. */
  function Exec(p: Program, s: string, c: Config, w: seq<bool>): Option<Config>
    requires SevenBit(s)
    decreases |w|
  {
    if w == [] then Some(c)
    else if c.pc >= |p| || !(p[c.pc].Split? || w[0]) then None
    else
      var e := Step(p, s, c, w[0]);
      if e.None? then None else Exec(p, s, e.value, w[1..])
  }

  lemma {:induction false} ExecJoin(p: Program, s: string, c: Config, u: seq<bool>, v: seq<bool>)
    requires SevenBit(s) && Exec(p, s, c, u).Some?
    ensures Exec(p, s, c, u + v) == Exec(p, s, Exec(p, s, c, u).value, v)
    decreases |u|
  {
    hide Step;
    if u == [] {
      assert u + v == v;
    } else {
      assert (u + v)[1..] == u[1..] + v;
      ExecJoin(p, s, Step(p, s, c, u[0]).value, u[1..], v);
    }
  }

  /** The slots after some of them were written to. */
  function Write(slots: Slots, m: map<nat, nat>): (r: Slots)
    ensures |r| == |slots|
  {
    seq(|slots|, k requires 0 <= k < |slots| => if k in m then Some(m[k]) else slots[k])
  }

  lemma WriteTwice(slots: Slots, a: map<nat, nat>, b: map<nat, nat>)
    ensures Write(Write(slots, a), b) == Write(slots, a + b)
  {
  }

  lemma WriteNothing(slots: Slots)
    ensures Write(slots, map[]) == slots
  {
  }

  lemma StoreWrites(slots: Slots, k: nat, i: nat)
    ensures Store(slots, k, i) == Write(slots, map[k := i])
  {
  }

  /** The choices lead from `lo` at `i` to `hi` at `j`, and write `m` to the slots. */
  ghost predicate Performs(p: Program, s: string, lo: nat, i: nat, w: seq<bool>, hi: nat, j: nat, m: map<nat, nat>)
    requires SevenBit(s)
  {
    forall slots: Slots :: Exec(p, s, Config(lo, i, slots), w) == Some(Config(hi, j, Write(slots, m)))
  }

  lemma PerformsThen(p: Program, s: string, lo: nat, i: nat, u: seq<bool>, mid: nat, k: nat, a: map<nat, nat>,
                     v: seq<bool>, hi: nat, j: nat, b: map<nat, nat>)
    requires SevenBit(s) && Performs(p, s, lo, i, u, mid, k, a) && Performs(p, s, mid, k, v, hi, j, b)
    ensures Performs(p, s, lo, i, u + v, hi, j, a + b)
  {
    hide Exec, Write;
    forall slots: Slots ensures Exec(p, s, Config(lo, i, slots), u + v) == Some(Config(hi, j, Write(slots, a + b))) {
      ExecJoin(p, s, Config(lo, i, slots), u, v);
      assert Exec(p, s, Config(lo, i, slots), u) == Some(Config(mid, k, Write(slots, a)));
      WriteTwice(slots, a, b);
    }
  }

  lemma PerformsNothing(p: Program, s: string, lo: nat, i: nat)
    requires SevenBit(s)
    ensures Performs(p, s, lo, i, [], lo, i, map[])
  {
    hide Write;
    forall slots: Slots ensures Write(slots, map[]) == slots { WriteNothing(slots); }
  }

  /** A step that leaves the slots alone. */
  lemma PerformsStep(p: Program, s: string, lo: nat, i: nat, b: bool, hi: nat, j: nat)
    requires SevenBit(s) && lo < |p| && (p[lo].Split? || b)
    requires forall slots: Slots :: Step(p, s, Config(lo, i, slots), b) == Some(Config(hi, j, slots))
    ensures Performs(p, s, lo, i, [b], hi, j, map[])
  {
    hide Write, Step;
    assert [b][1..] == [];
    forall slots: Slots ensures Exec(p, s, Config(lo, i, slots), [b]) == Some(Config(hi, j, Write(slots, map[]))) {
      WriteNothing(slots);
      assert Step(p, s, Config(lo, i, slots), b) == Some(Config(hi, j, slots));
    }
  }

  lemma PerformsBranch(p: Program, s: string, at: nat, i: nat, greedy: bool, into: nat, past: nat, b: bool)
    requires SevenBit(s) && at < |p| && p[at] == Branch(greedy, into, past)
    ensures Performs(p, s, at, i, [b], if b == greedy then into else past, i, map[])
  {
    PerformsStep(p, s, at, i, b, if b == greedy then into else past, i);
  }

  lemma PerformsJump(p: Program, s: string, at: nat, i: nat, target: nat)
    requires SevenBit(s) && at < |p| && p[at] == Jump(target)
    ensures Performs(p, s, at, i, [true], target, i, map[])
  {
    PerformsStep(p, s, at, i, true, target, i);
  }

  lemma PerformsSave(p: Program, s: string, at: nat, i: nat, slot: nat)
    requires SevenBit(s) && at < |p| && p[at] == Save(slot)
    ensures Performs(p, s, at, i, [true], at + 1, i, map[slot := i])
  {
    hide Write, Store;
    assert [true][1..] == [];
    forall slots: Slots
      ensures Exec(p, s, Config(at, i, slots), [true]) == Some(Config(at + 1, i, Write(slots, map[slot := i])))
    {
      StoreWrites(slots, slot, i);
    }
  }

  // ----- The choices of a derivation -----

  function Word(n: Node, d: Derivation): seq<bool>
    decreases d
  {
    match d
    case Leaf => if n.Epsilon? then [] else [true]
    case Both(first, second) => if n.Concatenation? then Word(n.left, first) + Word(n.right, second) else []
    case Either(left, chosen) =>
      if !n.Alternation? then []
      else if left then [true] + Word(n.left, chosen) + [true]
      else [false] + Word(n.right, chosen)
    case Inner(inner) => if n.Capture? then [true] + Word(n.captured, inner) + [true] else []
    case Several(passes) => if n.Quantifier? then PassesWord(n, passes, 0) else []
  }

  /** A loop decides before each pass if none is required, and otherwise after each pass that could be the
      last; an interval decides before each pass that is not required. */
  function PassesWord(n: Node, ps: Passes, k: nat): seq<bool>
    requires n.Quantifier?
    decreases ps
  {
    match ps
    case Over => if n.nmax == -1 && n.nmin == 0 then [!n.greedy] else []
    case Skip(rest) => [!n.greedy] + PassesWord(n, rest, k + 1)
    case Pass(made, rest) =>
      var body := Word(n.quantified, made);
      if n.nmax == -1 && n.nmin == 0 then [n.greedy] + body + [true] + PassesWord(n, rest, k + 1)
      else if n.nmax == -1 then
        body + (if k + 1 >= n.nmin then [n.greedy == rest.Pass?] else []) + PassesWord(n, rest, k + 1)
      else (if k >= n.nmin then [n.greedy] else []) + body + PassesWord(n, rest, k + 1)
  }

  // ----- Derivations are paths -----

  /** The path of a derivation. */
  ghost predicate Walks(p: Program, s: string, n: Node, d: Derivation, base: nat, nc: nat, i: nat)
    requires SevenBit(s) && WellFormed(n) && Follow(n, s, d, i).Some?
  {
    Performs(p, s, base, i, Word(n, d), base + |Code(n, base, nc)|, Follow(n, s, d, i).value, Captured(n, s, d, nc, i))
  }

  lemma LeafWalks(n: Node, p: Program, base: nat, nc: nat, s: string, i: nat)
    requires WellFormed(n) && IsLeaf(n) && SevenBit(s) && i <= |s| && Placed(p, base, Code(n, base, nc))
    requires LeafEnd(n, s, i).Some?
    ensures Walks(p, s, n, Leaf, base, nc, i)
  {
    hide Performs, Step, LeafEnd, Code, LeafCode;
    LeafIs(n, base, nc);
    if n.Epsilon? {
      EmptyLeaf(n, s, i);
      PerformsNothing(p, s, base, i);
    } else {
      forall slots: Slots
        ensures |LeafCode(n)| == 1 && base < |p|
        ensures Step(p, s, Config(base, i, slots), true) == Some(Config(base + 1, LeafEnd(n, s, i).value, slots))
        ensures !p[base].Split?
      {
        LeafStep(n, p, base, s, i, slots);
      }
      LeafStep(n, p, base, s, i, []);
      PerformsStep(p, s, base, i, true, base + 1, LeafEnd(n, s, i).value);
    }
  }

  lemma EmptyLeaf(n: Node, s: string, i: nat)
    requires WellFormed(n) && n.Epsilon?
    ensures LeafEnd(n, s, i) == Some(i) && LeafCode(n) == []
  {
  }

  lemma LeafStep(n: Node, p: Program, base: nat, s: string, i: nat, slots: Slots)
    requires WellFormed(n) && IsLeaf(n) && !n.Epsilon? && SevenBit(s) && i <= |s| && Placed(p, base, LeafCode(n))
    requires LeafEnd(n, s, i).Some?
    ensures |LeafCode(n)| == 1 && base < |p| && !p[base].Split?
    ensures Step(p, s, Config(base, i, slots), true) == Some(Config(base + 1, LeafEnd(n, s, i).value, slots))
  {
    PlacedAt(p, base, LeafCode(n), 0);
    if n.CharacterClass? { ClassInstrAccepts(n.negated, n.from, s[i]); }
  }

  lemma BothParts(n: Node, s: string, d: Derivation, nc: nat, i: nat)
    requires WellFormed(n) && d.Both? && Follow(n, s, d, i).Some?
    ensures n.Concatenation? && Follow(n.left, s, d.first, i).Some?
    ensures Word(n, d) == Word(n.left, d.first) + Word(n.right, d.second)
    ensures
      var k := Follow(n.left, s, d.first, i).value;
      && Follow(n, s, d, i) == Follow(n.right, s, d.second, k)
      && Captured(n, s, d, nc, i) ==
           Captured(n.left, s, d.first, nc, i) + Captured(n.right, s, d.second, CapturesAfter(n.left, nc), k)
  {
    hide CapturesAfter;
  }

  lemma {:induction false} BothWalks(n: Node, p: Program, base: nat, nc: nat, s: string, d: Derivation, i: nat)
    requires WellFormed(n) && SevenBit(s) && i <= |s| && Placed(p, base, Code(n, base, nc))
    requires d.Both? && Follow(n, s, d, i).Some?
    ensures Walks(p, s, n, d, base, nc, i)
    decreases d, 0
  {
    hide *;
    BothParts(n, s, d, nc, i);
    SidesWellFormed(n);
    ConcatenationCode(n, base, nc);
    var l, mc, k := Code(n.left, base, nc), CapturesAfter(n.left, nc), Follow(n.left, s, d.first, i).value;
    var r := Code(n.right, base + |l|, mc);
    PlacedParts(p, base, l, r);
    FollowForward(n.left, s, d.first, i);
    DerivationWalks(n.left, p, base, nc, s, d.first, i);
    DerivationWalks(n.right, p, base + |l|, mc, s, d.second, k);
    BothJoin(n, p, base, nc, s, d, i, k, l, r);
  }

  lemma BothJoin(n: Node, p: Program, base: nat, nc: nat, s: string, d: Derivation, i: nat, k: nat, l: seq<Instr>,
                 r: seq<Instr>)
    requires WellFormed(n) && SevenBit(s) && d.Both? && Follow(n, s, d, i).Some?
    requires n.Concatenation? && WellFormed(n.left) && WellFormed(n.right)
    requires Follow(n.left, s, d.first, i) == Some(k) && Follow(n.right, s, d.second, k).Some?
    requires l == Code(n.left, base, nc) && r == Code(n.right, base + |l|, CapturesAfter(n.left, nc))
    requires Code(n, base, nc) == l + r
    requires Walks(p, s, n.left, d.first, base, nc, i)
    requires Walks(p, s, n.right, d.second, base + |l|, CapturesAfter(n.left, nc), k)
    ensures Walks(p, s, n, d, base, nc, i)
  {
    hide *;
    BothParts(n, s, d, nc, i);
    var mc, j := CapturesAfter(n.left, nc), Follow(n, s, d, i).value;
    WalksIs(p, s, n.left, d.first, base, nc, i);
    WalksIs(p, s, n.right, d.second, base + |l|, mc, k);
    WalksIs(p, s, n, d, base, nc, i);
    PerformsThen(p, s, base, i, Word(n.left, d.first), base + |l|, k, Captured(n.left, s, d.first, nc, i),
                 Word(n.right, d.second), base + |l| + |r|, j, Captured(n.right, s, d.second, mc, k));
  }

  lemma SidesWellFormed(n: Node)
    requires WellFormed(n)
    ensures n.Concatenation? || n.Alternation? ==> WellFormed(n.left) && WellFormed(n.right)
  {
  }

  lemma WalksIs(p: Program, s: string, n: Node, d: Derivation, base: nat, nc: nat, i: nat)
    requires SevenBit(s) && WellFormed(n) && Follow(n, s, d, i).Some?
    ensures Walks(p, s, n, d, base, nc, i) <==>
            Performs(p, s, base, i, Word(n, d), base + |Code(n, base, nc)|, Follow(n, s, d, i).value,
                     Captured(n, s, d, nc, i))
  {
    hide Performs, Word, Code, Captured;
  }

  lemma {:induction false} EitherWalks(n: Node, p: Program, base: nat, nc: nat, s: string, d: Derivation, i: nat)
    requires WellFormed(n) && SevenBit(s) && i <= |s| && Placed(p, base, Code(n, base, nc))
    requires d.Either? && Follow(n, s, d, i).Some?
    ensures Walks(p, s, n, d, base, nc, i)
    decreases d, 0
  {
    hide *;
    EitherParts(n, s, d, nc, i);
    SidesWellFormed(n);
    AlternationCode(n, base, nc);
    var l, mc, j := Code(n.left, base + 1, nc), CapturesAfter(n.left, nc), Follow(n, s, d, i).value;
    var mid := base + 2 + |l|;
    var r := Code(n.right, mid, mc);
    AlternativesParts(p, base, l, r);
    AlternativesSize(l, r, base);
    WalksIs(p, s, n, d, base, nc, i);
    if d.left {
      var w, m := Word(n.left, d.chosen), Captured(n.left, s, d.chosen, nc, i);
      DerivationWalks(n.left, p, base + 1, nc, s, d.chosen, i);
      WalksIs(p, s, n.left, d.chosen, base + 1, nc, i);
      PerformsLeft(p, s, base, i, base + 1, mid, w, base + 1 + |l|, j, m, mid + |r|);
    } else {
      var w, m := Word(n.right, d.chosen), Captured(n.right, s, d.chosen, mc, i);
      DerivationWalks(n.right, p, mid, mc, s, d.chosen, i);
      WalksIs(p, s, n.right, d.chosen, mid, mc, i);
      PerformsRight(p, s, base, i, base + 1, mid, w, mid + |r|, j, m);
    }
  }

  lemma AlternativesSize(l: seq<Instr>, r: seq<Instr>, base: nat)
    ensures |Alternatives(l, r, base)| == 2 + |l| + |r|
  {
  }

  lemma EitherParts(n: Node, s: string, d: Derivation, nc: nat, i: nat)
    requires WellFormed(n) && d.Either? && Follow(n, s, d, i).Some?
    ensures n.Alternation? && Follow(n, s, d, i) == Follow(if d.left then n.left else n.right, s, d.chosen, i)
    ensures d.left ==> Word(n, d) == [true] + Word(n.left, d.chosen) + [true]
    ensures !d.left ==> Word(n, d) == [false] + Word(n.right, d.chosen)
    ensures d.left ==> Captured(n, s, d, nc, i) == Captured(n.left, s, d.chosen, nc, i)
    ensures !d.left ==> Captured(n, s, d, nc, i) == Captured(n.right, s, d.chosen, CapturesAfter(n.left, nc), i)
  {
    hide CapturesAfter;
  }

  lemma PerformsLeft(p: Program, s: string, at: nat, i: nat, into: nat, past: nat, w: seq<bool>, jump: nat, j: nat,
                     m: map<nat, nat>, hi: nat)
    requires SevenBit(s) && at < |p| && jump < |p| && p[at] == Split(into, past) && p[jump] == Jump(hi)
    requires Performs(p, s, into, i, w, jump, j, m)
    ensures Performs(p, s, at, i, [true] + w + [true], hi, j, m)
  {
    hide Performs;
    PerformsBranch(p, s, at, i, true, into, past, true);
    PerformsThen(p, s, at, i, [true], into, i, map[], w, jump, j, m);
    PerformsJump(p, s, jump, j, hi);
    PerformsThen(p, s, at, i, [true] + w, jump, j, map[] + m, [true], hi, j, map[]);
    assert map[] + m + map[] == m;
  }

  lemma PerformsRight(p: Program, s: string, at: nat, i: nat, into: nat, past: nat, w: seq<bool>, hi: nat, j: nat,
                      m: map<nat, nat>)
    requires SevenBit(s) && at < |p| && p[at] == Split(into, past) && Performs(p, s, past, i, w, hi, j, m)
    ensures Performs(p, s, at, i, [false] + w, hi, j, m)
  {
    hide Performs;
    PerformsBranch(p, s, at, i, true, into, past, false);
    PerformsThen(p, s, at, i, [false], past, i, map[], w, hi, j, m);
    assert map[] + m == m;
  }

  lemma {:induction false} InnerWalks(n: Node, p: Program, base: nat, nc: nat, s: string, d: Derivation, i: nat)
    requires WellFormed(n) && SevenBit(s) && i <= |s| && Placed(p, base, Code(n, base, nc))
    requires d.Inner? && Follow(n, s, d, i).Some?
    ensures Walks(p, s, n, d, base, nc, i)
    decreases d, 0
  {
    hide *;
    InnerParts(n, s, d, nc, i);
    CaptureCode(n, base, nc);
    var body, j := Code(n.captured, base + 1, nc + 1), Follow(n, s, d, i).value;
    SavedSize(body, nc);
    SavedParts(p, base, body, nc);
    PlacedFits(p, base, Saved(body, nc));
    DerivationWalks(n.captured, p, base + 1, nc + 1, s, d.inner, i);
    WalksIs(p, s, n.captured, d.inner, base + 1, nc + 1, i);
    WalksIs(p, s, n, d, base, nc, i);
    PerformsSaved(p, s, base, i, Word(n.captured, d.inner), base + 1 + |body|, j,
                  Captured(n.captured, s, d.inner, nc + 1, i), nc);
  }

  lemma SavedSize(body: seq<Instr>, nc: nat)
    ensures |Saved(body, nc)| == |body| + 2
  {
  }

  lemma InnerParts(n: Node, s: string, d: Derivation, nc: nat, i: nat)
    requires WellFormed(n) && d.Inner? && Follow(n, s, d, i).Some?
    ensures n.Capture? && WellFormed(n.captured) && Follow(n, s, d, i) == Follow(n.captured, s, d.inner, i)
    ensures Word(n, d) == [true] + Word(n.captured, d.inner) + [true]
    ensures Captured(n, s, d, nc, i) ==
      map[2 * nc := i] + Captured(n.captured, s, d.inner, nc + 1, i) + map[2 * nc + 1 := Follow(n, s, d, i).value]
  {
  }

  lemma PerformsSaved(p: Program, s: string, at: nat, i: nat, w: seq<bool>, last: nat, j: nat, m: map<nat, nat>,
                      nc: nat)
    requires SevenBit(s) && at < |p| && last < |p| && p[at] == Save(2 * nc) && p[last] == Save(2 * nc + 1)
    requires Performs(p, s, at + 1, i, w, last, j, m)
    ensures Performs(p, s, at, i, [true] + w + [true], last + 1, j, map[2 * nc := i] + m + map[2 * nc + 1 := j])
  {
    hide Performs;
    PerformsSave(p, s, at, i, 2 * nc);
    PerformsThen(p, s, at, i, [true], at + 1, i, map[2 * nc := i], w, last, j, m);
    PerformsSave(p, s, last, j, 2 * nc + 1);
    PerformsThen(p, s, at, i, [true] + w, last, j, map[2 * nc := i] + m, [true], last + 1, j, map[2 * nc + 1 := j]);
  }

  // ----- Quantifiers -----

  /** Where pass `k` of an interval begins. */
  function IntervalAt(g: Generator, base: nat, nmin: nat, greedy: bool, k: nat): nat
  {
    if k <= nmin then base + |Copies(g, base, k)|
    else
      var mid := base + |Copies(g, base, nmin)|;
      mid + |Options(g, mid, greedy, k - nmin)|
  }

  lemma {:induction false} CopyPlaced(g: Generator, p: Program, base: nat, all: nat, k: nat)
    requires Placed(p, base, Copies(g, base, all)) && k < all
    ensures
      var at := base + |Copies(g, base, k)|;
      Placed(p, at, g(at)) && base + |Copies(g, base, k + 1)| == at + |g(at)|
    decreases all
  {
    hide Placed;
    var c := Copies(g, base, all - 1);
    PlacedParts(p, base, c, g(base + |c|));
    if k < all - 1 { CopyPlaced(g, p, base, all - 1, k); }
  }

  lemma {:induction false} OptionPlaced(g: Generator, p: Program, base: nat, greedy: bool, all: nat, k: nat)
    requires Placed(p, base, Options(g, base, greedy, all)) && k < all
    ensures
      var at := base + |Options(g, base, greedy, k)|;
      var next := base + |Options(g, base, greedy, k + 1)|;
      && at < |p| && next == at + 1 + |g(at + 1)|
      && p[at] == Branch(greedy, at + 1, next) && Placed(p, at + 1, g(at + 1))
    decreases all
  {
    hide Placed, Branch;
    var c := Options(g, base, greedy, all - 1);
    PlacedParts(p, base, c, OptionCopy(g, base + |c|, greedy));
    if k < all - 1 {
      OptionPlaced(g, p, base, greedy, all - 1, k);
    } else {
      OptionParts(g, p, base + |c|, greedy);
    }
  }

  lemma OptionParts(g: Generator, p: Program, at: nat, greedy: bool)
    requires Placed(p, at, OptionCopy(g, at, greedy))
    ensures at < |p| && p[at] == Branch(greedy, at + 1, at + 1 + |g(at + 1)|) && Placed(p, at + 1, g(at + 1))
  {
    hide Branch;
    var split := [Branch(greedy, at + 1, at + 1 + |g(at + 1)|)];
    PlacedParts(p, at, split, g(at + 1));
    PlacedAt(p, at, split, 0);
  }

  /** The code of a pass of an interval from `at` to `next`: required, or after a split. */
  predicate PassPlaced(g: Generator, p: Program, at: nat, next: nat, greedy: bool, required: bool)
  {
    if required then Placed(p, at, g(at)) && next == at + |g(at)|
    else
      && at < |p| && p[at] == Branch(greedy, at + 1, next)
      && Placed(p, at + 1, g(at + 1)) && next == at + 1 + |g(at + 1)|
  }

  lemma IntervalParts(g: Generator, p: Program, base: nat, nmin: nat, nmax: nat, greedy: bool, k: nat)
    requires nmin <= nmax && Placed(p, base, Quantified(g, base, nmin, nmax, greedy))
    ensures IntervalAt(g, base, nmin, greedy, nmax) == base + |Quantified(g, base, nmin, nmax, greedy)|
    ensures k < nmax ==>
      var at, next := IntervalAt(g, base, nmin, greedy, k), IntervalAt(g, base, nmin, greedy, k + 1);
      PassPlaced(g, p, at, next, greedy, k < nmin)
  {
    hide Placed, Branch, Copies, Options, Quantified, IntervalAt, PassPlaced;
    IntervalSplit(g, p, base, nmin, nmax, greedy);
    IntervalAts(g, base, nmin, greedy, k);
    IntervalAts(g, base, nmin, greedy, k + 1);
    IntervalAts(g, base, nmin, greedy, nmax);
    if k < nmin {
      RequiredPass(g, p, base, greedy, nmin, k);
    } else if k < nmax {
      OptionalPass(g, p, base + |Copies(g, base, nmin)|, greedy, nmax - nmin, k - nmin);
      assert k + 1 - nmin == k - nmin + 1;
    }
  }

  lemma RequiredPass(g: Generator, p: Program, base: nat, greedy: bool, all: nat, k: nat)
    requires Placed(p, base, Copies(g, base, all)) && k < all
    ensures PassPlaced(g, p, base + |Copies(g, base, k)|, base + |Copies(g, base, k + 1)|, greedy, true)
  {
    hide Placed, Copies, Branch;
    CopyPlaced(g, p, base, all, k);
  }

  lemma OptionalPass(g: Generator, p: Program, base: nat, greedy: bool, all: nat, k: nat)
    requires Placed(p, base, Options(g, base, greedy, all)) && k < all
    ensures
      var at, next := base + |Options(g, base, greedy, k)|, base + |Options(g, base, greedy, k + 1)|;
      PassPlaced(g, p, at, next, greedy, false)
  {
    hide Placed, Options, Branch;
    OptionPlaced(g, p, base, greedy, all, k);
  }

  lemma IntervalSplit(g: Generator, p: Program, base: nat, nmin: nat, nmax: nat, greedy: bool)
    requires nmin <= nmax && Placed(p, base, Quantified(g, base, nmin, nmax, greedy))
    ensures
      var mid := base + |Copies(g, base, nmin)|;
      && Placed(p, base, Copies(g, base, nmin))
      && (nmin < nmax ==> Placed(p, mid, Options(g, mid, greedy, nmax - nmin)))
      && base + |Quantified(g, base, nmin, nmax, greedy)| ==
           if nmin < nmax then mid + |Options(g, mid, greedy, nmax - nmin)| else mid
  {
    hide Placed, Copies, Options;
    var c := Copies(g, base, nmin);
    if nmax > nmin { PlacedParts(p, base, c, Options(g, base + |c|, greedy, nmax - nmin)); }
  }

  lemma IntervalAts(g: Generator, base: nat, nmin: nat, greedy: bool, k: nat)
    ensures
      var mid := base + |Copies(g, base, nmin)|;
      && (k <= nmin ==> IntervalAt(g, base, nmin, greedy, k) == base + |Copies(g, base, k)|)
      && (k >= nmin ==> IntervalAt(g, base, nmin, greedy, k) == mid + |Options(g, mid, greedy, k - nmin)|)
  {
    hide Copies, OptionCopy;
  }

  lemma {:induction false} IntervalWalks(n: Node, p: Program, base: nat, nc: nat, s: string, ps: Passes, k: nat, i: nat)
    requires WellFormed(n) && n.Quantifier? && n.nmax != -1 && SevenBit(s) && i <= |s| && k <= n.nmax
    requires Placed(p, base, Quantified(CodeOf(n.quantified, nc), base, n.nmin, n.nmax, n.greedy))
    requires FollowPasses(n, s, ps, k, i).Some?
    ensures
      var g := CodeOf(n.quantified, nc);
      Performs(p, s, IntervalAt(g, base, n.nmin, n.greedy, k), i, PassesWord(n, ps, k),
               base + |Quantified(g, base, n.nmin, n.nmax, n.greedy)|, FollowPasses(n, s, ps, k, i).value,
               CapturedPasses(n, s, ps, nc, i))
    decreases ps, 0
  {
    hide Performs, Placed, Code, Quantified, IntervalAt, Branch;
    var g := CodeOf(n.quantified, nc);
    var hi, j := base + |Quantified(g, base, n.nmin, n.nmax, n.greedy)|, FollowPasses(n, s, ps, k, i).value;
    IntervalParts(g, p, base, n.nmin, n.nmax, n.greedy, k);
    var at, next := IntervalAt(g, base, n.nmin, n.greedy, k), IntervalAt(g, base, n.nmin, n.greedy, k + 1);
    match ps
    case Over => PerformsNothing(p, s, at, i);
    case Skip(rest) =>
      PerformsBranch(p, s, at, i, n.greedy, at + 1, next, !n.greedy);
      IntervalWalks(n, p, base, nc, s, rest, k + 1, i);
      var m := CapturedPasses(n, s, rest, nc, i);
      PerformsThen(p, s, at, i, [!n.greedy], next, i, map[], PassesWord(n, rest, k + 1), hi, j, m);
      assert map[] + m == m;
    case Pass(made, rest) =>
      var h := Follow(n.quantified, s, made, i).value;
      FollowForward(n.quantified, s, made, i);
      IntervalPass(n, p, at, next, nc, s, made, k, i);
      IntervalWalks(n, p, base, nc, s, rest, k + 1, h);
      PerformsThen(p, s, at, i, (if k >= n.nmin then [n.greedy] else []) + Word(n.quantified, made), next, h,
                   Captured(n.quantified, s, made, nc, i), PassesWord(n, rest, k + 1), hi, j,
                   CapturedPasses(n, s, rest, nc, h));
  }

  /** One pass, with the decision to make it. */
  lemma {:induction false} IntervalPass(n: Node, p: Program, at: nat, next: nat, nc: nat, s: string, d: Derivation,
                                        k: nat, i: nat)
    requires WellFormed(n) && n.Quantifier? && SevenBit(s) && i <= |s| && Follow(n.quantified, s, d, i).Some?
    requires PassPlaced(CodeOf(n.quantified, nc), p, at, next, n.greedy, k < n.nmin)
    ensures Performs(p, s, at, i, (if k >= n.nmin then [n.greedy] else []) + Word(n.quantified, d), next,
                     Follow(n.quantified, s, d, i).value, Captured(n.quantified, s, d, nc, i))
    decreases d, 2
  {
    hide Performs, Placed, Code, Branch, Word, Captured, Follow, Walks;
    var word, m := Word(n.quantified, d), Captured(n.quantified, s, d, nc, i);
    if k < n.nmin {
      DerivationWalks(n.quantified, p, at, nc, s, d, i);
      WalksIs(p, s, n.quantified, d, at, nc, i);
      assert [] + word == word;
    } else {
      DerivationWalks(n.quantified, p, at + 1, nc, s, d, i);
      WalksIs(p, s, n.quantified, d, at + 1, nc, i);
      PerformsBranch(p, s, at, i, n.greedy, at + 1, next, n.greedy);
      PerformsThen(p, s, at, i, [n.greedy], at + 1, i, map[], word, next, Follow(n.quantified, s, d, i).value, m);
      assert map[] + m == m;
    }
  }

  lemma StarParts(g: Generator, p: Program, base: nat, greedy: bool)
    requires Placed(p, base, StarLoop(g, base, greedy))
    ensures
      var mid := base + 1 + |g(base + 1)|;
      && mid < |p| && p[base] == Branch(greedy, base + 1, mid + 1) && p[mid] == Jump(base)
      && Placed(p, base + 1, g(base + 1)) && base + |StarLoop(g, base, greedy)| == mid + 1
  {
    hide Branch;
    var body := g(base + 1);
    var split := [Branch(greedy, base + 1, base + 2 + |body|)];
    PlacedParts(p, base, split + body, [Jump(base)]);
    PlacedParts(p, base, split, body);
    PlacedAt(p, base, split, 0);
    PlacedAt(p, base + |split + body|, [Jump(base)], 0);
  }

  lemma {:induction false} StarWalks(n: Node, p: Program, base: nat, nc: nat, s: string, ps: Passes, k: nat, i: nat)
    requires WellFormed(n) && n.Quantifier? && n.nmax == -1 && n.nmin == 0 && SevenBit(s) && i <= |s|
    requires Placed(p, base, StarLoop(CodeOf(n.quantified, nc), base, n.greedy)) && FollowPasses(n, s, ps, k, i).Some?
    ensures Performs(p, s, base, i, PassesWord(n, ps, k), base + |StarLoop(CodeOf(n.quantified, nc), base, n.greedy)|,
                     FollowPasses(n, s, ps, k, i).value, CapturedPasses(n, s, ps, nc, i))
    decreases ps, 0
  {
    hide Performs, Placed, Code, StarLoop, Branch;
    var g := CodeOf(n.quantified, nc);
    var mid, j := base + 1 + |g(base + 1)|, FollowPasses(n, s, ps, k, i).value;
    StarParts(g, p, base, n.greedy);
    match ps
    case Over => PerformsBranch(p, s, base, i, n.greedy, base + 1, mid + 1, !n.greedy);
    case Pass(made, rest) =>
      var h, word := Follow(n.quantified, s, made, i).value, Word(n.quantified, made);
      var m := Captured(n.quantified, s, made, nc, i);
      FollowForward(n.quantified, s, made, i);
      PerformsBranch(p, s, base, i, n.greedy, base + 1, mid + 1, n.greedy);
      DerivationWalks(n.quantified, p, base + 1, nc, s, made, i);
      PerformsThen(p, s, base, i, [n.greedy], base + 1, i, map[], word, mid, h, m);
      PerformsJump(p, s, mid, h, base);
      PerformsThen(p, s, base, i, [n.greedy] + word, mid, h, map[] + m, [true], base, h, map[]);
      assert map[] + m + map[] == m;
      StarWalks(n, p, base, nc, s, rest, k + 1, h);
      PerformsThen(p, s, base, i, [n.greedy] + word + [true], base, h, m, PassesWord(n, rest, k + 1), mid + 1, j,
                   CapturedPasses(n, s, rest, nc, h));
  }

  /** Where pass `k` of a loop after required copies begins: the last copy is the body of the loop. */
  function PlusAt(g: Generator, base: nat, nmin: nat, k: nat): nat
    requires nmin > 0
  {
    base + |Copies(g, base, if k < nmin then k else nmin - 1)|
  }

  lemma PlusParts(g: Generator, p: Program, base: nat, greedy: bool, nmin: nat, k: nat)
    requires nmin > 0 && Placed(p, base, PlusLoop(g, base, greedy, nmin))
    ensures
      var at, split := PlusAt(g, base, nmin, k), base + |Copies(g, base, nmin)|;
      && split < |p| && p[split] == Branch(greedy, PlusAt(g, base, nmin, nmin - 1), split + 1)
      && Placed(p, at, g(at)) && base + |PlusLoop(g, base, greedy, nmin)| == split + 1
      && at + |g(at)| == if k + 1 < nmin then PlusAt(g, base, nmin, k + 1) else split
  {
    hide Branch, Placed, Copies, PlusLoop;
    PlusSplit(g, p, base, greedy, nmin);
    CopyPlaced(g, p, base, nmin, if k < nmin then k else nmin - 1);
  }

  lemma PlusSplit(g: Generator, p: Program, base: nat, greedy: bool, nmin: nat)
    requires nmin > 0 && Placed(p, base, PlusLoop(g, base, greedy, nmin))
    ensures
      var split := base + |Copies(g, base, nmin)|;
      && split < |p| && p[split] == Branch(greedy, base + |Copies(g, base, nmin - 1)|, split + 1)
      && Placed(p, base, Copies(g, base, nmin)) && base + |PlusLoop(g, base, greedy, nmin)| == split + 1
  {
    hide Branch, Placed, Copies;
    var c := Copies(g, base, nmin);
    var loop := [Branch(greedy, base + |Copies(g, base, nmin - 1)|, base + |c| + 1)];
    PlacedParts(p, base, c, loop);
    PlacedAt(p, base + |c|, loop, 0);
    PlacedFits(p, base + |c|, loop);
  }

  lemma PlacedFits(p: Program, base: nat, code: seq<Instr>)
    requires Placed(p, base, code)
    ensures base + |code| <= |p|
  {
  }

  lemma {:induction false} PlusWalks(n: Node, p: Program, base: nat, nc: nat, s: string, ps: Passes, k: nat, i: nat)
    requires WellFormed(n) && n.Quantifier? && n.nmax == -1 && n.nmin > 0 && SevenBit(s) && i <= |s| && ps.Pass?
    requires Placed(p, base, PlusLoop(CodeOf(n.quantified, nc), base, n.greedy, n.nmin))
    requires FollowPasses(n, s, ps, k, i).Some?
    ensures Performs(p, s, PlusAt(CodeOf(n.quantified, nc), base, n.nmin, k), i, PassesWord(n, ps, k),
                     base + |PlusLoop(CodeOf(n.quantified, nc), base, n.greedy, n.nmin)|,
                     FollowPasses(n, s, ps, k, i).value, CapturedPasses(n, s, ps, nc, i))
    decreases ps, 0
  {
    hide Performs, Placed, Code, PlusLoop, Branch, PlusAt;
    var g, made, rest := CodeOf(n.quantified, nc), ps.made, ps.rest;
    var at, split := PlusAt(g, base, n.nmin, k), base + |Copies(g, base, n.nmin)|;
    var j := FollowPasses(n, s, ps, k, i).value;
    var h, word := Follow(n.quantified, s, made, i).value, Word(n.quantified, made);
    var m := Captured(n.quantified, s, made, nc, i);
    var hi, more := split + 1, CapturedPasses(n, s, rest, nc, h);
    PlusParts(g, p, base, n.greedy, n.nmin, k);
    FollowForward(n.quantified, s, made, i);
    DerivationWalks(n.quantified, p, at, nc, s, made, i);
    if k + 1 < n.nmin {
      PlusWalks(n, p, base, nc, s, rest, k + 1, h);
      assert word + [] == word;
      PerformsThen(p, s, at, i, word, at + |g(at)|, h, m, PassesWord(n, rest, k + 1), hi, j, more);
    } else {
      var b := n.greedy == rest.Pass?;
      PerformsBranch(p, s, split, h, n.greedy, PlusAt(g, base, n.nmin, n.nmin - 1), hi, b);
      var to := if rest.Pass? then PlusAt(g, base, n.nmin, n.nmin - 1) else hi;
      PerformsThen(p, s, at, i, word, split, h, m, [b], to, h, map[]);
      assert m + map[] == m;
      if rest.Pass? {
        PlusAgain(g, base, n.nmin, k + 1);
        PlusWalks(n, p, base, nc, s, rest, k + 1, h);
      } else {
        PerformsNothing(p, s, hi, h);
      }
      PerformsThen(p, s, at, i, word + [b], to, h, m, PassesWord(n, rest, k + 1), hi, j, more);
    }
  }

  lemma PlusAgain(g: Generator, base: nat, nmin: nat, k: nat)
    requires 0 < nmin <= k
    ensures PlusAt(g, base, nmin, k) == PlusAt(g, base, nmin, nmin - 1)
  {
  }

  lemma {:induction false} SeveralWalks(n: Node, p: Program, base: nat, nc: nat, s: string, d: Derivation, i: nat)
    requires WellFormed(n) && SevenBit(s) && i <= |s| && Placed(p, base, Code(n, base, nc))
    requires d.Several? && Follow(n, s, d, i).Some?
    ensures Walks(p, s, n, d, base, nc, i)
    decreases d, 0
  {
    hide Performs, Placed, Code, StarLoop, PlusLoop;
    QuantifierCode(n, base, nc);
    var g := CodeOf(n.quantified, nc);
    if n.nmax != -1 {
      hide Quantified;
      IntervalWalks(n, p, base, nc, s, d.passes, 0, i);
      assert IntervalAt(g, base, n.nmin, n.greedy, 0) == base;
    } else if n.nmin == 0 {
      StarWalks(n, p, base, nc, s, d.passes, 0, i);
    } else {
      PlusWalks(n, p, base, nc, s, d.passes, 0, i);
      assert PlusAt(g, base, n.nmin, 0) == base;
    }
  }

  /** Every derivation is a path through the code, wherever the code is placed. */
  lemma {:induction false} DerivationWalks(n: Node, p: Program, base: nat, nc: nat, s: string, d: Derivation, i: nat)
    requires WellFormed(n) && SevenBit(s) && i <= |s| && Placed(p, base, Code(n, base, nc))
    requires Follow(n, s, d, i).Some?
    ensures Walks(p, s, n, d, base, nc, i)
    decreases d, 1
  {
    hide Walks, Placed, Code;
    match d
    case Leaf => LeafWalks(n, p, base, nc, s, i);
    case Both(_, _) => BothWalks(n, p, base, nc, s, d, i);
    case Either(_, _) => EitherWalks(n, p, base, nc, s, d, i);
    case Inner(_) => InnerWalks(n, p, base, nc, s, d, i);
    case Several(_) => SeveralWalks(n, p, base, nc, s, d, i);
  }
}
