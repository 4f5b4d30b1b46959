/** Every path through the code of a tree spells a derivation of the tree (src/cregex_compile.c:129-248). */
module CregexReadBack {
  import opened Wrappers
  import opened Cregex
  import opened CregexSemantics
  import opened CregexBacktrack
  import opened CregexPaths
  import opened CregexCode
  import opened CregexCodeCorrect
  import opened CregexDerivation
  import opened CregexWords

  /** The choices lead from `c` to `e`. */
  ghost predicate Leads(p: Program, s: string, c: Config, w: seq<bool>, e: Config)
    requires SevenBit(s)
  {
    c.i <= |s| && Exec(p, s, c, w) == Some(e)
  }

  lemma FirstChoice(p: Program, s: string, c: Config, w: seq<bool>, e: Config)
    requires SevenBit(s) && Leads(p, s, c, w, e) && e.pc != c.pc
    ensures w != [] && c.pc < |p| && (p[c.pc].Split? || w[0]) && Step(p, s, c, w[0]).Some?
    ensures Leads(p, s, Step(p, s, c, w[0]).value, w[1..], e)
  {
    hide Accepts;
  }

  /** A decision of a quantifier. */
  lemma BranchChoice(p: Program, s: string, c: Config, w: seq<bool>, e: Config, greedy: bool, into: nat, past: nat)
    requires SevenBit(s) && Leads(p, s, c, w, e) && e.pc != c.pc && c.pc < |p| && p[c.pc] == Branch(greedy, into, past)
    ensures w != [] && Leads(p, s, c.(pc := if w[0] == greedy then into else past), w[1..], e)
  {
    FirstChoice(p, s, c, w, e);
  }

  lemma JumpChoice(p: Program, s: string, c: Config, w: seq<bool>, e: Config, target: nat)
    requires SevenBit(s) && Leads(p, s, c, w, e) && e.pc != c.pc && c.pc < |p| && p[c.pc] == Jump(target)
    ensures w != [] && w[0] && Leads(p, s, c.(pc := target), w[1..], e)
  {
    FirstChoice(p, s, c, w, e);
  }

  lemma SaveChoice(p: Program, s: string, c: Config, w: seq<bool>, e: Config, slot: nat)
    requires SevenBit(s) && Leads(p, s, c, w, e) && e.pc != c.pc && c.pc < |p| && p[c.pc] == Save(slot)
    ensures w != [] && w[0] && Leads(p, s, Config(c.pc + 1, c.i, Store(c.slots, slot, c.i)), w[1..], e)
  {
    hide Store;
    FirstChoice(p, s, c, w, e);
  }

  /** Not inside the stretch of code. */
  predicate Outside(pc: nat, lo: nat, size: nat)
  {
    pc < lo || lo + size <= pc
  }

  /** The derivation is the first part of the path; `c'` is where it leads. */
  ghost predicate Reads(p: Program, s: string, n: Node, base: nat, nc: nat, c: Config, w: seq<bool>, e: Config,
                        d: Derivation, c': Config, rest: seq<bool>)
    requires SevenBit(s) && WellFormed(n)
  {
    && Follow(n, s, d, c.i) == Some(c'.i) && w == Word(n, d) + rest
    && c'.pc == base + |Code(n, base, nc)| && Leads(p, s, c', rest, e)
  }

  /** What remains of a path after the derivation it starts with. */
  lemma After(n: Node, p: Program, base: nat, nc: nat, s: string, d: Derivation, c: Config, rest: seq<bool>, e: Config)
    returns (c': Config)
    requires WellFormed(n) && SevenBit(s) && Placed(p, base, Code(n, base, nc)) && c.pc == base
    requires Follow(n, s, d, c.i).Some? && Leads(p, s, c, Word(n, d) + rest, e)
    ensures c'.pc == base + |Code(n, base, nc)| && Some(c'.i) == Follow(n, s, d, c.i) && Leads(p, s, c', rest, e)
  {
    hide Exec, Code, Placed, Write, Word, Captured;
    DerivationWalks(n, p, base, nc, s, d, c.i);
    FollowForward(n, s, d, c.i);
    var m := Captured(n, s, d, nc, c.i);
    c' := Config(base + |Code(n, base, nc)|, Follow(n, s, d, c.i).value, Write(c.slots, m));
    assert c == Config(base, c.i, c.slots);
    assert Exec(p, s, Config(base, c.i, c.slots), Word(n, d)) == Some(c');
    ExecJoin(p, s, c, Word(n, d), rest);
  }

  lemma LeafReads(n: Node, p: Program, base: nat, nc: nat, s: string, c: Config, w: seq<bool>, e: Config)
    returns (rest: seq<bool>)
    requires WellFormed(n) && IsLeaf(n) && SevenBit(s) && Placed(p, base, Code(n, base, nc)) && c.pc == base
    requires Leads(p, s, c, w, e) && Outside(e.pc, base, |Code(n, base, nc)|)
    ensures w == Word(n, Leaf) + rest && LeafEnd(n, s, c.i).Some?
  {
    LeafIs(n, base, nc);
    if n.Epsilon? {
      rest := w;
    } else {
      PlacedAt(p, base, LeafCode(n), 0);
      FirstChoice(p, s, c, w, e);
      if n.CharacterClass? && c.i < |s| { ClassInstrAccepts(n.negated, n.from, s[c.i]); }
      rest := w[1..];
    }
  }

  lemma {:induction false} BothReads(n: Node, p: Program, base: nat, nc: nat, s: string, c: Config, w: seq<bool>,
                                     e: Config)
    returns (d: Derivation, rest: seq<bool>)
    requires WellFormed(n) && n.Concatenation? && SevenBit(s) && Placed(p, base, Code(n, base, nc)) && c.pc == base
    requires Leads(p, s, c, w, e) && Outside(e.pc, base, |Code(n, base, nc)|)
    ensures Follow(n, s, d, c.i).Some? && w == Word(n, d) + rest
    decreases n, 0, 0, 0
  {
    hide Leads, Placed, Code, CapturesAfter;
    ConcatenationCode(n, base, nc);
    var l, mc := Code(n.left, base, nc), CapturesAfter(n.left, nc);
    PlacedParts(p, base, l, Code(n.right, base + |l|, mc));
    var a, c', mid := PathReads(n.left, p, base, nc, s, c, w, e);
    var b, c'', last := PathReads(n.right, p, base + |l|, mc, s, c', mid, e);
    d, rest := Both(a, b), last;
    assert Word(n.left, a) + (Word(n.right, b) + last) == Word(n.left, a) + Word(n.right, b) + last;
  }

  lemma {:induction false} EitherReads(n: Node, p: Program, base: nat, nc: nat, s: string, c: Config, w: seq<bool>,
                                       e: Config)
    returns (d: Derivation, rest: seq<bool>)
    requires WellFormed(n) && n.Alternation? && SevenBit(s) && Placed(p, base, Code(n, base, nc)) && c.pc == base
    requires Leads(p, s, c, w, e) && Outside(e.pc, base, |Code(n, base, nc)|)
    ensures Follow(n, s, d, c.i).Some? && w == Word(n, d) + rest
    decreases n, 0, 0, 0
  {
    hide Leads, Placed, Code, CapturesAfter;
    AlternationCode(n, base, nc);
    var l, mc := Code(n.left, base + 1, nc), CapturesAfter(n.left, nc);
    var r := Code(n.right, base + 2 + |l|, mc);
    AlternativesParts(p, base, l, r);
    PlacedFits(p, base, Code(n, base, nc));
    BranchChoice(p, s, c, w, e, true, base + 1, base + 2 + |l|);
    if w[0] {
      var a, c', mid := PathReads(n.left, p, base + 1, nc, s, c.(pc := base + 1), w[1..], e);
      JumpChoice(p, s, c', mid, e, base + 2 + |l| + |r|);
      d, rest := Either(true, a), mid[1..];
      assert w == [true] + w[1..] && mid == [true] + mid[1..];
      assert [true] + (Word(n.left, a) + ([true] + rest)) == [true] + Word(n.left, a) + [true] + rest;
    } else {
      var b, c', last := PathReads(n.right, p, base + 2 + |l|, mc, s, c.(pc := base + 2 + |l|), w[1..], e);
      d, rest := Either(false, b), last;
      assert w == [false] + w[1..];
      assert [false] + (Word(n.right, b) + rest) == [false] + Word(n.right, b) + rest;
    }
  }

  lemma {:induction false} InnerReads(n: Node, p: Program, base: nat, nc: nat, s: string, c: Config, w: seq<bool>,
                                      e: Config)
    returns (d: Derivation, rest: seq<bool>)
    requires WellFormed(n) && n.Capture? && SevenBit(s) && Placed(p, base, Code(n, base, nc)) && c.pc == base
    requires Leads(p, s, c, w, e) && Outside(e.pc, base, |Code(n, base, nc)|)
    ensures Follow(n, s, d, c.i).Some? && w == Word(n, d) + rest
    decreases n, 0, 0, 0
  {
    hide Leads, Placed, Code, Store;
    CaptureCode(n, base, nc);
    var body := Code(n.captured, base + 1, nc + 1);
    SavedParts(p, base, body, nc);
    PlacedFits(p, base, Saved(body, nc));
    SaveChoice(p, s, c, w, e, 2 * nc);
    var inside := Config(base + 1, c.i, Store(c.slots, 2 * nc, c.i));
    var a, c', mid := PathReads(n.captured, p, base + 1, nc + 1, s, inside, w[1..], e);
    SaveChoice(p, s, c', mid, e, 2 * nc + 1);
    d, rest := Inner(a), mid[1..];
    assert w == [true] + w[1..] && mid == [true] + mid[1..];
    assert [true] + (Word(n.captured, a) + ([true] + rest)) == [true] + Word(n.captured, a) + [true] + rest;
  }

  /** A path that leaves the code of a tree starts with the choices of a derivation. */
  lemma {:induction false} PathReads(n: Node, p: Program, base: nat, nc: nat, s: string, c: Config, w: seq<bool>,
                                     e: Config)
    returns (d: Derivation, c': Config, rest: seq<bool>)
    requires WellFormed(n) && SevenBit(s) && Placed(p, base, Code(n, base, nc)) && c.pc == base
    requires Leads(p, s, c, w, e) && Outside(e.pc, base, |Code(n, base, nc)|)
    ensures Reads(p, s, n, base, nc, c, w, e, d, c', rest)
    decreases n, 1, 0, 0
  {
    hide Leads, Placed, Code, Word;
    match n {
      case Concatenation(_, _) => d, rest := BothReads(n, p, base, nc, s, c, w, e);
      case Alternation(_, _) => d, rest := EitherReads(n, p, base, nc, s, c, w, e);
      case Capture(_) => d, rest := InnerReads(n, p, base, nc, s, c, w, e);
      case Quantifier(_, _, _, _) => d, rest := SeveralReads(n, p, base, nc, s, c, w, e);
      case _ =>
        rest := LeafReads(n, p, base, nc, s, c, w, e);
        d := Leaf;
    }
    c' := After(n, p, base, nc, s, d, c, rest, e);
  }

  // ----- Quantifiers -----

  lemma {:induction false} CopiesGrow(g: Generator, base: nat, k: nat, all: nat)
    requires k <= all
    ensures |Copies(g, base, k)| <= |Copies(g, base, all)|
    decreases all
  {
    if k < all { CopiesGrow(g, base, k, all - 1); }
  }

  lemma {:induction false} OptionsGrow(g: Generator, base: nat, greedy: bool, k: nat, all: nat)
    requires k <= all
    ensures |Options(g, base, greedy, k)| <= |Options(g, base, greedy, all)|
    decreases all
  {
    if k < all { OptionsGrow(g, base, greedy, k, all - 1); }
  }

  lemma IntervalInside(g: Generator, base: nat, nmin: nat, nmax: nat, greedy: bool, k: nat)
    requires nmin <= nmax && k <= nmax
    ensures base <= IntervalAt(g, base, nmin, greedy, k) <= base + |Quantified(g, base, nmin, nmax, greedy)|
  {
    hide OptionCopy;
    var mid := base + |Copies(g, base, nmin)|;
    if k <= nmin { CopiesGrow(g, base, k, nmin); } else { OptionsGrow(g, mid, greedy, k - nmin, nmax - nmin); }
  }

  /** What is decided before a pass, and between it and the passes after it. */
  predicate Decided(n: Node, more: Passes, k: nat, before: seq<bool>, between: seq<bool>)
    requires n.Quantifier?
  {
    if n.nmax == -1 && n.nmin == 0 then before == [n.greedy] && between == [true]
    else if n.nmax == -1 then
      before == [] && between == (if k + 1 >= n.nmin then [n.greedy == more.Pass?] else [])
    else before == (if k >= n.nmin then [n.greedy] else []) && between == []
  }

  /** A pass, and the passes after it. */
  lemma PassMore(n: Node, s: string, k: nat, i: nat, a: Derivation, m: nat, more: Passes, before: seq<bool>,
                 between: seq<bool>, w: seq<bool>, u: seq<bool>, rest: seq<bool>)
    requires WellFormed(n) && n.Quantifier? && (n.nmax == -1 || k < n.nmax)
    requires Follow(n.quantified, s, a, i) == Some(m) && FollowPasses(n, s, more, k + 1, m).Some?
    requires w == before + (Word(n.quantified, a) + (between + u)) && u == PassesWord(n, more, k + 1) + rest
    requires Decided(n, more, k, before, between)
    ensures FollowPasses(n, s, Pass(a, more), k, i).Some? && w == PassesWord(n, Pass(a, more), k) + rest
  {
    hide Follow, Word;
    var body, tail := Word(n.quantified, a), PassesWord(n, more, k + 1);
    Regroup(before, body, between, tail, rest);
    PassWord(n, a, more, k, before, between);
  }

  lemma PassWord(n: Node, a: Derivation, more: Passes, k: nat, before: seq<bool>, between: seq<bool>)
    requires n.Quantifier?
    requires Decided(n, more, k, before, between)
    ensures PassesWord(n, Pass(a, more), k) == before + Word(n.quantified, a) + between + PassesWord(n, more, k + 1)
  {
    hide Word;
    var body := Word(n.quantified, a);
    assert [] + body == body && before + body + [] == before + body;
  }

  lemma Regroup(a: seq<bool>, b: seq<bool>, c: seq<bool>, d: seq<bool>, e: seq<bool>)
    ensures a + (b + (c + (d + e))) == (a + b + c + d) + e
  {
  }

  lemma SkipMore(n: Node, s: string, k: nat, i: nat, more: Passes, w: seq<bool>, rest: seq<bool>)
    requires WellFormed(n) && n.Quantifier? && n.nmax != -1 && n.nmin <= k < n.nmax
    requires FollowPasses(n, s, more, k + 1, i).Some? && w == [!n.greedy] + (PassesWord(n, more, k + 1) + rest)
    ensures FollowPasses(n, s, Skip(more), k, i).Some? && w == PassesWord(n, Skip(more), k) + rest
  {
  }

  lemma {:induction false} IntervalReads(n: Node, p: Program, base: nat, nc: nat, s: string, k: nat, c: Config,
                                         w: seq<bool>, e: Config)
    returns (ps: Passes, rest: seq<bool>)
    requires WellFormed(n) && n.Quantifier? && n.nmax != -1 && SevenBit(s) && k <= n.nmax
    requires Placed(p, base, Quantified(CodeOf(n.quantified, nc), base, n.nmin, n.nmax, n.greedy))
    requires c.pc == IntervalAt(CodeOf(n.quantified, nc), base, n.nmin, n.greedy, k) && Leads(p, s, c, w, e)
    requires Outside(e.pc, base, |Quantified(CodeOf(n.quantified, nc), base, n.nmin, n.nmax, n.greedy)|)
    ensures FollowPasses(n, s, ps, k, c.i).Some? && w == PassesWord(n, ps, k) + rest
    decreases n.quantified, 2, n.nmax - k, 0
  {
    hide Leads, Placed, Code, Quantified, IntervalAt, Branch, PassesWord, Word, Follow;
    var g := CodeOf(n.quantified, nc);
    if k == n.nmax {
      ps, rest := Over, w;
      OverWord(n, k);
    } else {
      IntervalParts(g, p, base, n.nmin, n.nmax, n.greedy, k);
      IntervalInside(g, base, n.nmin, n.nmax, n.greedy, k);
      IntervalInside(g, base, n.nmin, n.nmax, n.greedy, k + 1);
      var next := IntervalAt(g, base, n.nmin, n.greedy, k + 1);
      if k < n.nmin {
        var a, c', u := PathReads(n.quantified, p, c.pc, nc, s, c, w, e);
        var more;
        more, rest := IntervalReads(n, p, base, nc, s, k + 1, c', u, e);
        ps := Pass(a, more);
        assert w == [] + (Word(n.quantified, a) + ([] + u));
        PassMore(n, s, k, c.i, a, c'.i, more, [], [], w, u, rest);
      } else {
        BranchChoice(p, s, c, w, e, n.greedy, c.pc + 1, next);
        assert w == [w[0]] + w[1..];
        if w[0] == n.greedy {
          var a, c', u := PathReads(n.quantified, p, c.pc + 1, nc, s, c.(pc := c.pc + 1), w[1..], e);
          var more;
          more, rest := IntervalReads(n, p, base, nc, s, k + 1, c', u, e);
          ps := Pass(a, more);
          assert w == [n.greedy] + (Word(n.quantified, a) + ([] + u));
          PassMore(n, s, k, c.i, a, c'.i, more, [n.greedy], [], w, u, rest);
        } else {
          var more;
          more, rest := IntervalReads(n, p, base, nc, s, k + 1, c.(pc := next), w[1..], e);
          ps := Skip(more);
          SkipMore(n, s, k, c.i, more, w, rest);
        }
      }
    }
  }

  lemma OverWord(n: Node, k: nat)
    requires n.Quantifier?
    ensures PassesWord(n, Over, k) == if n.nmax == -1 && n.nmin == 0 then [!n.greedy] else []
  {
  }

  lemma {:induction false} StarReads(n: Node, p: Program, base: nat, nc: nat, s: string, k: nat, c: Config,
                                     w: seq<bool>, e: Config)
    returns (ps: Passes, rest: seq<bool>)
    requires WellFormed(n) && n.Quantifier? && n.nmax == -1 && n.nmin == 0 && SevenBit(s) && c.pc == base
    requires Placed(p, base, StarLoop(CodeOf(n.quantified, nc), base, n.greedy)) && Leads(p, s, c, w, e)
    requires Outside(e.pc, base, |StarLoop(CodeOf(n.quantified, nc), base, n.greedy)|)
    ensures FollowPasses(n, s, ps, k, c.i).Some? && w == PassesWord(n, ps, k) + rest
    decreases n.quantified, 2, |w|, 0
  {
    hide Leads, Placed, Code, StarLoop, Branch, PassesWord, Word, Follow;
    var g := CodeOf(n.quantified, nc);
    OverWord(n, k);
    StarParts(g, p, base, n.greedy);
    var mid := base + 1 + |g(base + 1)|;
    BranchChoice(p, s, c, w, e, n.greedy, base + 1, mid + 1);
    assert w == [w[0]] + w[1..];
    if w[0] == n.greedy {
      var a, c', u := PathReads(n.quantified, p, base + 1, nc, s, c.(pc := base + 1), w[1..], e);
      JumpChoice(p, s, c', u, e, base);
      assert u == [true] + u[1..];
      var more;
      more, rest := StarReads(n, p, base, nc, s, k + 1, c'.(pc := base), u[1..], e);
      ps := Pass(a, more);
      PassMore(n, s, k, c.i, a, c'.i, more, [n.greedy], [true], w, u[1..], rest);
    } else {
      ps, rest := Over, w[1..];
      assert w == [!n.greedy] + rest;
    }
  }

  lemma {:induction false} PlusReads(n: Node, p: Program, base: nat, nc: nat, s: string, k: nat, c: Config,
                                     w: seq<bool>, e: Config)
    returns (ps: Passes, rest: seq<bool>)
    requires WellFormed(n) && n.Quantifier? && n.nmax == -1 && n.nmin > 0 && SevenBit(s)
    requires c.pc == PlusAt(CodeOf(n.quantified, nc), base, n.nmin, k) && Leads(p, s, c, w, e)
    requires Placed(p, base, PlusLoop(CodeOf(n.quantified, nc), base, n.greedy, n.nmin))
    requires Outside(e.pc, base, |PlusLoop(CodeOf(n.quantified, nc), base, n.greedy, n.nmin)|)
    ensures ps.Pass? && FollowPasses(n, s, ps, k, c.i).Some? && w == PassesWord(n, ps, k) + rest
    decreases n.quantified, 2, |w|, if k < n.nmin then n.nmin - k else 0
  {
    hide Leads, Placed, Code, PlusLoop, Branch, PlusAt, PassesWord, Word, Follow;
    var g := CodeOf(n.quantified, nc);
    PlusParts(g, p, base, n.greedy, n.nmin, k);
    PlusInside(g, base, n.nmin, k);
    var lo, split := PlusAt(g, base, n.nmin, n.nmin - 1), base + |Copies(g, base, n.nmin)|;
    var a, c', u := PathReads(n.quantified, p, c.pc, nc, s, c, w, e);
    var more;
    if k + 1 < n.nmin {
      more, rest := PlusReads(n, p, base, nc, s, k + 1, c', u, e);
      assert w == [] + (Word(n.quantified, a) + ([] + u));
      PassMore(n, s, k, c.i, a, c'.i, more, [], [], w, u, rest);
    } else {
      BranchChoice(p, s, c', u, e, n.greedy, lo, split + 1);
      assert u == [u[0]] + u[1..];
      if u[0] == n.greedy {
        PlusAgain(g, base, n.nmin, k + 1);
        more, rest := PlusReads(n, p, base, nc, s, k + 1, c'.(pc := lo), u[1..], e);
      } else {
        more, rest := Over, u[1..];
        OverWord(n, k + 1);
      }
      assert w == [] + (Word(n.quantified, a) + ([u[0]] + u[1..]));
      PassMore(n, s, k, c.i, a, c'.i, more, [], [u[0]], w, u[1..], rest);
    }
    ps := Pass(a, more);
  }

  lemma PlusInside(g: Generator, base: nat, nmin: nat, k: nat)
    requires nmin > 0
    ensures base <= PlusAt(g, base, nmin, k)
    ensures k + 1 < nmin ==> PlusAt(g, base, nmin, k + 1) <= base + |Copies(g, base, nmin)|
  {
    hide Copies;
    if k + 1 < nmin { CopiesGrow(g, base, k + 1, nmin); }
  }

  lemma {:induction false} SeveralReads(n: Node, p: Program, base: nat, nc: nat, s: string, c: Config, w: seq<bool>,
                                        e: Config)
    returns (d: Derivation, rest: seq<bool>)
    requires WellFormed(n) && n.Quantifier? && SevenBit(s) && Placed(p, base, Code(n, base, nc)) && c.pc == base
    requires Leads(p, s, c, w, e) && Outside(e.pc, base, |Code(n, base, nc)|)
    ensures Follow(n, s, d, c.i).Some? && w == Word(n, d) + rest
    decreases n, 0, 0, 0
  {
    hide Leads, Placed, Code, StarLoop, PlusLoop;
    QuantifierCode(n, base, nc);
    var g := CodeOf(n.quantified, nc);
    var ps;
    if n.nmax != -1 {
      hide Quantified;
      assert IntervalAt(g, base, n.nmin, n.greedy, 0) == base;
      ps, rest := IntervalReads(n, p, base, nc, s, 0, c, w, e);
    } else if n.nmin == 0 {
      ps, rest := StarReads(n, p, base, nc, s, 0, c, w, e);
    } else {
      assert PlusAt(g, base, n.nmin, 0) == base;
      ps, rest := PlusReads(n, p, base, nc, s, 0, c, w, e);
    }
    d := Several(ps);
  }
}
