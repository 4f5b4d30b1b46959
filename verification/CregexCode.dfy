/** The code generated for a tree, as a function: its length, its jump targets, its capture
    slots, and that its paths are exactly the matches of the tree
    (specification of src/cregex_compile.c). */
module CregexCode {
  import opened Wrappers
  import opened Cregex
  import opened CregexSemantics
  import opened CregexBacktrack
  import opened CregexPaths

  // ----- Bitmaps of character classes -----

  function AddRange(k: CharClass, lo: nat, hi: nat): CharClass
    requires hi < 256
    decreases hi + 1 - lo
  {
    if lo > hi then k else AddRange(ClassAdd(k, lo), lo + 1, hi)
  }

  lemma {:induction false} AddRangeContains(k: CharClass, lo: nat, hi: nat, d: nat)
    requires hi < 256 && d < 256
    ensures ClassContains(AddRange(k, lo, hi), d) <==> lo <= d <= hi || ClassContains(k, d)
    decreases hi + 1 - lo
  {
    if lo <= hi {
      ClassAddContains(k, lo, d);
      AddRangeContains(ClassAdd(k, lo), lo + 1, hi, d);
    }
  }

  predicate Narrow(items: seq<Range>)
  {
    forall k :: 0 <= k < |items| ==> items[k].hi as int < 128
  }

  function Fill(items: seq<Range>): CharClass
    requires Narrow(items)
  {
    if items == [] then EMPTY_CLASS
    else
      var last := items[|items| - 1];
      AddRange(Fill(items[..|items| - 1]), last.lo as int, last.hi as int)
  }

  /** The bitmap of a class holds exactly the characters of its ranges. */
  lemma {:induction false} FillContains(items: seq<Range>, c: char)
    requires Narrow(items) && c as int < 256
    ensures ClassContains(Fill(items), c as int) <==> InItems(items, c)
  {
    if items == [] {
      EmptyClassContains(c as int);
    } else {
      var n := |items| - 1;
      FillContains(items[..n], c);
      AddRangeContains(Fill(items[..n]), items[n].lo as int, items[n].hi as int, c as int);
      if InItems(items, c) {
        var k :| 0 <= k < |items| && items[k].lo <= c <= items[k].hi;
        assert k < n ==> items[..n][k] == items[k];
      }
      if InItems(items[..n], c) {
        var k :| 0 <= k < n && items[..n][k].lo <= c <= items[..n][k].hi;
        assert items[k] == items[..n][k];
      }
    }
  }

  // ----- Code -----

  function CapturesAfter(n: Node, nc: nat): nat
    requires WellFormed(n)
  {
    match n
    case Concatenation(left, right) => CapturesAfter(right, CapturesAfter(left, nc))
    case Alternation(left, right) => CapturesAfter(right, CapturesAfter(left, nc))
    case Quantifier(nmin, nmax, _, q) => if nmax == 0 then nc else CapturesAfter(q, nc)
    case Capture(q) => CapturesAfter(q, nc + 1)
    case _ => nc
  }

  /** A split whose preferred branch is `into` for a greedy quantifier and `past` otherwise. */
  function Branch(greedy: bool, into: nat, past: nat): Instr
  {
    if greedy then Split(into, past) else Split(past, into)
  }

  function ClassInstr(negated: bool, from: string): Instr
    requires SevenBit(from)
  {
    var k := Fill(ClassItems(from));
    if negated then ClassNegated(k) else Class(k)
  }

  function Alternatives(l: seq<Instr>, r: seq<Instr>, base: nat): seq<Instr>
  {
    [Split(base + 1, base + 2 + |l|)] + l + [Jump(base + 2 + |l| + |r|)] + r
  }

  function Saved(body: seq<Instr>, nc: nat): seq<Instr>
  {
    [Save(2 * nc)] + body + [Save(2 * nc + 1)]
  }

  predicate IsLeaf(n: Node)
  {
    !(n.Concatenation? || n.Alternation? || n.Quantifier? || n.Capture?)
  }

  function LeafCode(n: Node): seq<Instr>
    requires WellFormed(n) && IsLeaf(n)
  {
    match n
    case Epsilon => []
    case Character(ch) => [Char(ch)]
    case AnyCharacter => [Any]
    case CharacterClass(negated, from, _) => [ClassInstr(negated, from)]
    case AnchorBegin => [AssertBegin]
    case AnchorEnd => [AssertEnd]
  }

  /** Code that can be placed at any instruction: `g(b)` is its text when it starts at `b`. */
  type Generator = nat -> seq<Instr>

  /** `k` mandatory copies. */
  function Copies(g: Generator, base: nat, k: nat): seq<Instr>
  {
    if k == 0 then []
    else
      var c := Copies(g, base, k - 1);
      c + g(base + |c|)
  }

  /** A copy that can be skipped. */
  function OptionCopy(g: Generator, base: nat, greedy: bool): seq<Instr>
  {
    var c := g(base + 1);
    [Branch(greedy, base + 1, base + 1 + |c|)] + c
  }

  /** `k` copies, each of which can be skipped. */
  function Options(g: Generator, base: nat, greedy: bool, k: nat): seq<Instr>
  {
    if k == 0 then []
    else
      var c := Options(g, base, greedy, k - 1);
      c + OptionCopy(g, base + |c|, greedy)
  }

  /** A copy that can be run any number of times. */
  function StarLoop(g: Generator, base: nat, greedy: bool): seq<Instr>
  {
    var c := g(base + 1);
    [Branch(greedy, base + 1, base + 2 + |c|)] + c + [Jump(base)]
  }

  /** Copies of which the last one can be run any number of times. */
  function PlusLoop(g: Generator, base: nat, greedy: bool, k: nat): seq<Instr>
    requires k > 0
  {
    var c := Copies(g, base, k);
    c + [Branch(greedy, base + |Copies(g, base, k - 1)|, base + |c| + 1)]
  }

  function Quantified(g: Generator, base: nat, nmin: nat, nmax: int, greedy: bool): seq<Instr>
  {
    if nmax > nmin then
      var c := Copies(g, base, nmin);
      c + Options(g, base + |c|, greedy, nmax - nmin)
    else if nmax == -1 then
      if nmin == 0 then StarLoop(g, base, greedy) else PlusLoop(g, base, greedy, nmin)
    else
      Copies(g, base, nmin)
  }

  /** The code of a tree, placed at instruction `base`, when `nc` captures precede it. */
  function Code(n: Node, base: nat, nc: nat): seq<Instr>
    requires WellFormed(n)
    decreases n, 0
  {
    match n
    case Concatenation(left, right) =>
      var l := Code(left, base, nc);
      l + Code(right, base + |l|, CapturesAfter(left, nc))
    case Alternation(left, right) =>
      var l := Code(left, base + 1, nc);
      Alternatives(l, Code(right, base + 2 + |l|, CapturesAfter(left, nc)), base)
    case Quantifier(nmin, nmax, greedy, q) => Quantified(CodeOf(q, nc), base, nmin, nmax, greedy)
    case Capture(q) => Saved(Code(q, base + 1, nc + 1), nc)
    case _ => LeafCode(n)
  }

  function CodeOf(q: Node, nc: nat): Generator
    requires WellFormed(q)
    decreases q, 1
  {
    (base: nat) => Code(q, base, nc)
  }

  // One unfolding of Code each.

  lemma ConcatenationCode(n: Node, base: nat, nc: nat)
    requires WellFormed(n) && n.Concatenation?
    ensures Code(n, base, nc) ==
            Code(n.left, base, nc) + Code(n.right, base + |Code(n.left, base, nc)|, CapturesAfter(n.left, nc))
  {
    hide CapturesAfter, Quantified, Alternatives, LeafCode, Saved, WellFormed;
  }

  lemma AlternationCode(n: Node, base: nat, nc: nat)
    requires WellFormed(n) && n.Alternation?
    ensures
      var l := Code(n.left, base + 1, nc);
      Code(n, base, nc) == Alternatives(l, Code(n.right, base + 2 + |l|, CapturesAfter(n.left, nc)), base)
  {
    hide CapturesAfter, Quantified, Alternatives, LeafCode, Saved, WellFormed;
  }

  lemma CaptureCode(n: Node, base: nat, nc: nat)
    requires WellFormed(n) && n.Capture?
    ensures Code(n, base, nc) == Saved(Code(n.captured, base + 1, nc + 1), nc)
  {
    hide CapturesAfter, Quantified, Alternatives, LeafCode, Saved, WellFormed;
  }

  lemma QuantifierCode(n: Node, base: nat, nc: nat)
    requires WellFormed(n) && n.Quantifier?
    ensures Code(n, base, nc) == Quantified(CodeOf(n.quantified, nc), base, n.nmin, n.nmax, n.greedy)
  {
    hide CapturesAfter, Quantified, Alternatives, LeafCode, Saved;
  }

  lemma LeafIs(n: Node, base: nat, nc: nat)
    requires WellFormed(n) && IsLeaf(n)
    ensures Code(n, base, nc) == LeafCode(n)
  {
    hide CapturesAfter, Quantified, Alternatives, LeafCode, Saved, WellFormed;
  }

  // ----- Length -----

  function CountInstructions(n: Node): int
  {
    match n
    case Epsilon => 0
    case Concatenation(left, right) => CountInstructions(left) + CountInstructions(right)
    case Alternation(left, right) => 2 + CountInstructions(left) + CountInstructions(right)
    case Quantifier(nmin, nmax, _, q) =>
      var num := CountInstructions(q);
      if nmax >= nmin then nmin * num + (nmax - nmin) * (num + 1)
      else 1 + (if nmin != 0 then nmin * num else num + 1)
    case Capture(q) => 2 + CountInstructions(q)
    case _ => 1
  }

  ghost predicate FixedLength(g: Generator, num: nat)
  {
    forall b: nat :: |g(b)| == num
  }

  lemma {:induction false} CopiesLength(g: Generator, base: nat, k: nat, num: nat)
    requires FixedLength(g, num)
    ensures |Copies(g, base, k)| == k * num
    decreases k
  {
    if k > 0 {
      CopiesLength(g, base, k - 1, num);
      assert k * num == (k - 1) * num + num;
    }
  }

  lemma {:induction false} OptionsLength(g: Generator, base: nat, greedy: bool, k: nat, num: nat)
    requires FixedLength(g, num)
    ensures |Options(g, base, greedy, k)| == k * (num + 1)
    decreases k
  {
    if k > 0 {
      OptionsLength(g, base, greedy, k - 1, num);
      assert k * (num + 1) == (k - 1) * (num + 1) + (num + 1);
    }
  }

  lemma QuantifiedLength(g: Generator, base: nat, nmin: nat, nmax: int, greedy: bool, num: nat)
    requires FixedLength(g, num) && (nmax == -1 || nmin <= nmax)
    ensures |Quantified(g, base, nmin, nmax, greedy)| ==
      if nmax >= nmin then nmin * num + (nmax - nmin) * (num + 1)
      else 1 + (if nmin != 0 then nmin * num else num + 1)
  {
    CopiesLength(g, base, nmin, num);
    if nmax > nmin {
      OptionsLength(g, base + |Copies(g, base, nmin)|, greedy, nmax - nmin, num);
    }
  }

  lemma {:induction false} CodeOfLength(q: Node, nc: nat)
    requires WellFormed(q)
    ensures CountInstructions(q) >= 0 && FixedLength(CodeOf(q, nc), CountInstructions(q))
    decreases q, 1
  {
    CodeLength(q, 0, nc);
    forall b: nat ensures |CodeOf(q, nc)(b)| == CountInstructions(q) { CodeLength(q, b, nc); }
  }

  /** The size estimate is exact, wherever the code is placed. */
  lemma {:induction false} CodeLength(n: Node, base: nat, nc: nat)
    requires WellFormed(n)
    ensures |Code(n, base, nc)| == CountInstructions(n)
    decreases n, 0
  {
    match n
    case Concatenation(left, right) =>
      CodeLength(left, base, nc);
      CodeLength(right, base + |Code(left, base, nc)|, CapturesAfter(left, nc));
    case Alternation(left, right) =>
      CodeLength(left, base + 1, nc);
      CodeLength(right, base + 2 + |Code(left, base + 1, nc)|, CapturesAfter(left, nc));
    case Quantifier(nmin, nmax, greedy, q) =>
      CodeLength(q, 0, nc);
      CodeOfLength(q, nc);
      QuantifiedLength(CodeOf(q, nc), base, nmin, nmax, greedy, CountInstructions(q));
    case Capture(q) => CodeLength(q, base + 1, nc + 1);
    case _ =>
  }

  // ----- Targets -----

  /** Every jump and split of the code stays within it or goes to the instruction just after. */
  predicate Enclosed(code: seq<Instr>, base: nat)
  {
    forall k :: 0 <= k < |code| ==> Contained(code[k], base, base + |code|)
  }

  ghost predicate AlwaysEnclosed(g: Generator)
  {
    forall b: nat :: Enclosed(g(b), b)
  }

  lemma EnclosedConcat(a: seq<Instr>, b: seq<Instr>, base: nat)
    requires Enclosed(a, base) && Enclosed(b, base + |a|)
    ensures Enclosed(a + b, base)
  {
    forall k | 0 <= k < |a + b| ensures Contained((a + b)[k], base, base + |a + b|) {
      if k < |a| {
        assert Contained(a[k], base, base + |a|);
      } else {
        assert Contained(b[k - |a|], base + |a|, base + |a| + |b|);
      }
    }
  }

  /** Code between two instructions, or none, whose own targets are inside. */
  lemma EnclosedWrap(a: seq<Instr>, b: seq<Instr>, c: seq<Instr>, base: nat)
    requires Enclosed(b, base + |a|)
    requires forall k :: 0 <= k < |a| ==> Contained(a[k], base, base + |a| + |b| + |c|)
    requires forall k :: 0 <= k < |c| ==> Contained(c[k], base, base + |a| + |b| + |c|)
    ensures Enclosed(a + b + c, base)
  {
    forall k | 0 <= k < |a + b + c| ensures Contained((a + b + c)[k], base, base + |a + b + c|) {
      if |a| <= k < |a| + |b| {
        assert Contained(b[k - |a|], base + |a|, base + |a| + |b|);
      }
    }
  }

  lemma AlternativesEnclosed(l: seq<Instr>, r: seq<Instr>, base: nat)
    requires Enclosed(l, base + 1) && Enclosed(r, base + 2 + |l|)
    ensures Enclosed(Alternatives(l, r, base), base)
  {
    var code := Alternatives(l, r, base);
    forall k | 0 <= k < |code| ensures Contained(code[k], base, base + |code|) {
      if 1 <= k < 1 + |l| {
        assert code[k] == l[k - 1];
      } else if k >= 2 + |l| {
        assert code[k] == r[k - 2 - |l|];
      }
    }
  }

  lemma {:induction false} CopiesEnclosed(g: Generator, base: nat, k: nat)
    requires AlwaysEnclosed(g)
    ensures Enclosed(Copies(g, base, k), base)
    decreases k
  {
    if k > 0 {
      CopiesEnclosed(g, base, k - 1);
      var c := Copies(g, base, k - 1);
      EnclosedConcat(c, g(base + |c|), base);
    }
  }

  lemma {:induction false} OptionsEnclosed(g: Generator, base: nat, greedy: bool, k: nat)
    requires AlwaysEnclosed(g)
    ensures Enclosed(Options(g, base, greedy, k), base)
    decreases k
  {
    if k > 0 {
      OptionsEnclosed(g, base, greedy, k - 1);
      var c := Options(g, base, greedy, k - 1);
      OptionCopyEnclosed(g, base + |c|, greedy);
      EnclosedConcat(c, OptionCopy(g, base + |c|, greedy), base);
    }
  }

  lemma OptionCopyEnclosed(g: Generator, base: nat, greedy: bool)
    requires AlwaysEnclosed(g)
    ensures Enclosed(OptionCopy(g, base, greedy), base)
  {
    var c := g(base + 1);
    var split := [Branch(greedy, base + 1, base + 1 + |c|)];
    EnclosedWrap(split, c, [], base);
    assert split + c + [] == split + c;
  }

  lemma QuantifiedEnclosed(g: Generator, base: nat, nmin: nat, nmax: int, greedy: bool)
    requires AlwaysEnclosed(g)
    ensures Enclosed(Quantified(g, base, nmin, nmax, greedy), base)
  {
    var c := Copies(g, base, nmin);
    CopiesEnclosed(g, base, nmin);
    if nmax > nmin {
      OptionsEnclosed(g, base + |c|, greedy, nmax - nmin);
      EnclosedConcat(c, Options(g, base + |c|, greedy, nmax - nmin), base);
    } else if nmax == -1 && nmin == 0 {
      var body := g(base + 1);
      EnclosedWrap([Branch(greedy, base + 1, base + 2 + |body|)], body, [Jump(base)], base);
    } else if nmax == -1 {
      var loop := [Branch(greedy, base + |Copies(g, base, nmin - 1)|, base + |c| + 1)];
      EnclosedWrap([], c, loop, base);
      assert [] + c + loop == c + loop;
    }
  }

  lemma {:induction false} CodeEnclosed(n: Node, base: nat, nc: nat)
    requires WellFormed(n)
    ensures Enclosed(Code(n, base, nc), base)
    decreases n, 0
  {
    hide Code, Quantified, Alternatives, Enclosed, AlwaysEnclosed;
    match n
    case Concatenation(left, right) =>
      ConcatenationCode(n, base, nc);
      var l := Code(left, base, nc);
      CodeEnclosed(left, base, nc);
      CodeEnclosed(right, base + |l|, CapturesAfter(left, nc));
      EnclosedConcat(l, Code(right, base + |l|, CapturesAfter(left, nc)), base);
    case Alternation(left, right) =>
      AlternationCode(n, base, nc);
      var l := Code(left, base + 1, nc);
      var mid := base + 2 + |l|;
      CodeEnclosed(left, base + 1, nc);
      CodeEnclosed(right, mid, CapturesAfter(left, nc));
      AlternativesEnclosed(l, Code(right, mid, CapturesAfter(left, nc)), base);
    case Quantifier(nmin, nmax, greedy, q) =>
      QuantifierCode(n, base, nc);
      CodeOfEnclosed(q, nc);
      QuantifiedEnclosed(CodeOf(q, nc), base, nmin, nmax, greedy);
    case Capture(q) =>
      CaptureCode(n, base, nc);
      CodeEnclosed(q, base + 1, nc + 1);
      EnclosedWrap([Save(2 * nc)], Code(q, base + 1, nc + 1), [Save(2 * nc + 1)], base);
    case _ =>
      LeafIs(n, base, nc);
      LeafEnclosed(n, base);
  }

  lemma LeafEnclosed(n: Node, base: nat)
    requires WellFormed(n) && IsLeaf(n)
    ensures Enclosed(LeafCode(n), base)
  {
  }

  lemma {:induction false} CodeOfEnclosed(q: Node, nc: nat)
    requires WellFormed(q)
    ensures AlwaysEnclosed(CodeOf(q, nc))
    decreases q, 1
  {
    forall b: nat ensures Enclosed(CodeOf(q, nc)(b), b) { CodeEnclosed(q, b, nc); }
  }

  // ----- Capture slots -----

  predicate SavesWithin(code: seq<Instr>, lo: nat, hi: nat)
  {
    forall k :: 0 <= k < |code| && code[k].Save? ==> lo <= code[k].slot < hi
  }

  lemma {:induction false} CapturesGrow(n: Node, nc: nat)
    requires WellFormed(n)
    ensures nc <= CapturesAfter(n, nc)
  {
    match n
    case Concatenation(left, right) => CapturesGrow(left, nc); CapturesGrow(right, CapturesAfter(left, nc));
    case Alternation(left, right) => CapturesGrow(left, nc); CapturesGrow(right, CapturesAfter(left, nc));
    case Quantifier(_, _, _, q) => CapturesGrow(q, nc);
    case Capture(q) => CapturesGrow(q, nc + 1);
    case _ =>
  }

  ghost predicate AlwaysSavesWithin(g: Generator, lo: nat, hi: nat)
  {
    forall b: nat :: SavesWithin(g(b), lo, hi)
  }

  lemma {:induction false} CopiesSaves(g: Generator, base: nat, k: nat, lo: nat, hi: nat)
    requires AlwaysSavesWithin(g, lo, hi)
    ensures SavesWithin(Copies(g, base, k), lo, hi)
    decreases k
  {
    if k > 0 { CopiesSaves(g, base, k - 1, lo, hi); }
  }

  lemma {:induction false} OptionsSaves(g: Generator, base: nat, greedy: bool, k: nat, lo: nat, hi: nat)
    requires AlwaysSavesWithin(g, lo, hi)
    ensures SavesWithin(Options(g, base, greedy, k), lo, hi)
    decreases k
  {
    if k > 0 { OptionsSaves(g, base, greedy, k - 1, lo, hi); }
  }

  lemma QuantifiedSaves(g: Generator, base: nat, nmin: nat, nmax: int, greedy: bool, lo: nat, hi: nat)
    requires AlwaysSavesWithin(g, lo, hi)
    ensures SavesWithin(Quantified(g, base, nmin, nmax, greedy), lo, hi)
    ensures nmin == nmax == 0 ==> Quantified(g, base, nmin, nmax, greedy) == []
  {
    CopiesSaves(g, base, nmin, lo, hi);
    if nmax > nmin {
      OptionsSaves(g, base + |Copies(g, base, nmin)|, greedy, nmax - nmin, lo, hi);
    }
  }

  lemma {:induction false} CodeOfSaves(q: Node, nc: nat)
    requires WellFormed(q)
    ensures AlwaysSavesWithin(CodeOf(q, nc), 2 * nc, 2 * CapturesAfter(q, nc))
    decreases q, 1
  {
    forall b: nat ensures SavesWithin(CodeOf(q, nc)(b), 2 * nc, 2 * CapturesAfter(q, nc)) { CodeSaves(q, b, nc); }
  }

  lemma SavesJoin(a: seq<Instr>, b: seq<Instr>, lo: nat, mid: nat, hi: nat)
    requires SavesWithin(a, lo, mid) && SavesWithin(b, mid, hi) && lo <= mid <= hi
    ensures SavesWithin(a + b, lo, hi)
    ensures forall base: nat :: SavesWithin(Alternatives(a, b, base), lo, hi)
  {
    forall base: nat ensures SavesWithin(Alternatives(a, b, base), lo, hi) {
      var code := Alternatives(a, b, base);
      forall k | 0 <= k < |code| && code[k].Save? ensures lo <= code[k].slot < hi {
        assert code[k] in a || code[k] in b;
      }
    }
  }

  /** Code saves only to the two slots of each capture that it numbers. */
  lemma {:induction false} CodeSaves(n: Node, base: nat, nc: nat)
    requires WellFormed(n)
    ensures SavesWithin(Code(n, base, nc), 2 * nc, 2 * CapturesAfter(n, nc))
    decreases n, 0
  {
    hide Code, Quantified, Alternatives, AlwaysSavesWithin;
    match n
    case Concatenation(left, right) =>
      ConcatenationCode(n, base, nc);
      var l, mc := Code(left, base, nc), CapturesAfter(left, nc);
      CodeSaves(left, base, nc);
      CodeSaves(right, base + |l|, mc);
      CapturesGrow(left, nc);
      CapturesGrow(right, mc);
      SavesJoin(l, Code(right, base + |l|, mc), 2 * nc, 2 * mc, 2 * CapturesAfter(right, mc));
    case Alternation(left, right) =>
      AlternationCode(n, base, nc);
      var l, mc := Code(left, base + 1, nc), CapturesAfter(left, nc);
      CodeSaves(left, base + 1, nc);
      CodeSaves(right, base + 2 + |l|, mc);
      CapturesGrow(left, nc);
      CapturesGrow(right, mc);
      SavesJoin(l, Code(right, base + 2 + |l|, mc), 2 * nc, 2 * mc, 2 * CapturesAfter(right, mc));
    case Quantifier(nmin, nmax, greedy, q) =>
      QuantifierCode(n, base, nc);
      CodeOfSaves(q, nc);
      QuantifiedSaves(CodeOf(q, nc), base, nmin, nmax, greedy, 2 * nc, 2 * CapturesAfter(q, nc));
    case Capture(q) =>
      CaptureCode(n, base, nc);
      CodeSaves(q, base + 1, nc + 1);
      CapturesGrow(q, nc + 1);
    case _ => LeafIs(n, base, nc);
  }
}
