/** The copies of a quantified body (src/cregex_compile.c:179-217): code placed elsewhere differs only by
    the shift of its targets, so that every copy saves to the same capture slots. */
module CregexCopies {
  import opened Wrappers
  import opened Cregex
  import opened CregexSemantics
  import opened CregexCode

  function Moved(i: Instr, d: nat): Instr
  {
    match i
    case Split(first, second) => Split(first + d, second + d)
    case Jump(target) => Jump(target + d)
    case _ => i
  }

  /** Code moved up by `d` instructions. */
  function Shift(code: seq<Instr>, d: nat): (r: seq<Instr>)
    ensures |r| == |code| && forall k :: 0 <= k < |code| ==> r[k] == Moved(code[k], d)
  {
    seq(|code|, k requires 0 <= k < |code| => Moved(code[k], d))
  }

  lemma ShiftJoin(a: seq<Instr>, b: seq<Instr>, d: nat)
    ensures Shift(a + b, d) == Shift(a, d) + Shift(b, d)
  {
  }

  lemma ShiftOne(i: Instr, d: nat)
    ensures Shift([i], d) == [Moved(i, d)]
  {
  }

  lemma ShiftWrap(a: Instr, b: seq<Instr>, c: Instr, d: nat)
    ensures Shift([a] + b, d) == [Moved(a, d)] + Shift(b, d)
    ensures Shift(b + [c], d) == Shift(b, d) + [Moved(c, d)]
    ensures Shift([a] + b + [c], d) == [Moved(a, d)] + Shift(b, d) + [Moved(c, d)]
  {
    hide Shift;
    ShiftOne(a, d);
    ShiftOne(c, d);
    ShiftJoin([a], b, d);
    ShiftJoin(b, [c], d);
    ShiftJoin([a] + b, [c], d);
  }

  /** The generator gives the same code everywhere, up to the shift. */
  ghost predicate Relocates(g: Generator)
  {
    forall b: nat, d: nat :: g(b + d) == Shift(g(b), d)
  }

  lemma Placed(g: Generator, b: nat, d: nat)
    requires Relocates(g)
    ensures g(b + d) == Shift(g(b), d) && |g(b + d)| == |g(b)|
  {
  }

  lemma {:induction false} CopiesMove(g: Generator, base: nat, k: nat, d: nat)
    requires Relocates(g)
    ensures Copies(g, base + d, k) == Shift(Copies(g, base, k), d)
    decreases k
  {
    hide Relocates;
    if k > 0 {
      CopiesMove(g, base, k - 1, d);
      var c := Copies(g, base, k - 1);
      Placed(g, base + |c|, d);
      assert base + |c| + d == base + d + |c|;
      ShiftJoin(c, g(base + |c|), d);
    }
  }

  lemma OptionCopyMoves(g: Generator, base: nat, greedy: bool, d: nat)
    requires Relocates(g)
    ensures OptionCopy(g, base + d, greedy) == Shift(OptionCopy(g, base, greedy), d)
  {
    hide Relocates, Shift;
    var c := g(base + 1);
    Placed(g, base + 1, d);
    assert base + 1 + d == base + d + 1;
    ShiftWrap(Branch(greedy, base + 1, base + 1 + |c|), c, Match, d);
  }

  lemma {:induction false} OptionsMove(g: Generator, base: nat, greedy: bool, k: nat, d: nat)
    requires Relocates(g)
    ensures Options(g, base + d, greedy, k) == Shift(Options(g, base, greedy, k), d)
    decreases k
  {
    hide Relocates, OptionCopy;
    if k > 0 {
      OptionsMove(g, base, greedy, k - 1, d);
      var c := Options(g, base, greedy, k - 1);
      OptionCopyMoves(g, base + |c|, greedy, d);
      assert base + |c| + d == base + d + |c|;
      ShiftJoin(c, OptionCopy(g, base + |c|, greedy), d);
    }
  }

  lemma StarMoves(g: Generator, base: nat, greedy: bool, d: nat)
    requires Relocates(g)
    ensures StarLoop(g, base + d, greedy) == Shift(StarLoop(g, base, greedy), d)
  {
    hide Relocates, Shift;
    var c := g(base + 1);
    Placed(g, base + 1, d);
    assert base + 1 + d == base + d + 1;
    ShiftWrap(Branch(greedy, base + 1, base + 2 + |c|), c, Jump(base), d);
  }

  lemma PlusMoves(g: Generator, base: nat, greedy: bool, k: nat, d: nat)
    requires Relocates(g) && k > 0
    ensures PlusLoop(g, base + d, greedy, k) == Shift(PlusLoop(g, base, greedy, k), d)
  {
    hide Relocates, Copies;
    CopiesMove(g, base, k, d);
    CopiesMove(g, base, k - 1, d);
    var c := Copies(g, base, k);
    ShiftWrap(Match, c, Branch(greedy, base + |Copies(g, base, k - 1)|, base + |c| + 1), d);
  }

  lemma QuantifiedMoves(g: Generator, base: nat, nmin: nat, nmax: int, greedy: bool, d: nat)
    requires Relocates(g)
    ensures Quantified(g, base + d, nmin, nmax, greedy) == Shift(Quantified(g, base, nmin, nmax, greedy), d)
  {
    hide Relocates, Copies, Options, StarLoop, PlusLoop;
    CopiesMove(g, base, nmin, d);
    if nmax > nmin {
      var c := Copies(g, base, nmin);
      OptionsMove(g, base + |c|, greedy, nmax - nmin, d);
      assert base + |c| + d == base + d + |c|;
      ShiftJoin(c, Options(g, base + |c|, greedy, nmax - nmin), d);
    } else if nmax == -1 && nmin == 0 {
      StarMoves(g, base, greedy, d);
    } else if nmax == -1 {
      PlusMoves(g, base, greedy, nmin, d);
    }
  }

  lemma AlternativesMove(l: seq<Instr>, r: seq<Instr>, base: nat, d: nat)
    ensures Shift(Alternatives(l, r, base), d) == Alternatives(Shift(l, d), Shift(r, d), base + d)
  {
    hide Shift;
    var split, jump := Split(base + 1, base + 2 + |l|), Jump(base + 2 + |l| + |r|);
    ShiftWrap(split, l, jump, d);
    ShiftJoin([split] + l + [jump], r, d);
    ShiftSize(l, d);
    ShiftSize(r, d);
  }

  lemma ShiftSize(a: seq<Instr>, d: nat)
    ensures |Shift(a, d)| == |a|
  {
  }

  lemma {:induction false} CodeOfMoves(q: Node, nc: nat)
    requires WellFormed(q)
    ensures Relocates(CodeOf(q, nc))
    decreases q, 1
  {
    hide Code, Shift;
    forall b: nat, d: nat ensures CodeOf(q, nc)(b + d) == Shift(CodeOf(q, nc)(b), d) { CodeMoves(q, b, nc, d); }
  }

  lemma ConcatenationMoves(n: Node, base: nat, nc: nat, d: nat)
    requires WellFormed(n) && n.Concatenation?
    requires Code(n.left, base + d, nc) == Shift(Code(n.left, base, nc), d)
    requires
      var at, mc := base + |Code(n.left, base, nc)|, CapturesAfter(n.left, nc);
      Code(n.right, at + d, mc) == Shift(Code(n.right, at, mc), d)
    ensures Code(n, base + d, nc) == Shift(Code(n, base, nc), d)
  {
    hide Shift, Code, CapturesAfter;
    ConcatenationCode(n, base, nc);
    ConcatenationCode(n, base + d, nc);
    var l, mc := Code(n.left, base, nc), CapturesAfter(n.left, nc);
    ShiftSize(l, d);
    assert base + |l| + d == base + d + |l|;
    ShiftJoin(l, Code(n.right, base + |l|, mc), d);
  }

  lemma AlternationMoves(n: Node, base: nat, nc: nat, d: nat)
    requires WellFormed(n) && n.Alternation?
    requires Code(n.left, base + 1 + d, nc) == Shift(Code(n.left, base + 1, nc), d)
    requires
      var at, mc := base + 2 + |Code(n.left, base + 1, nc)|, CapturesAfter(n.left, nc);
      Code(n.right, at + d, mc) == Shift(Code(n.right, at, mc), d)
    ensures Code(n, base + d, nc) == Shift(Code(n, base, nc), d)
  {
    hide Shift, Alternatives, Code, CapturesAfter;
    AlternationCode(n, base, nc);
    AlternationCode(n, base + d, nc);
    var l, mc := Code(n.left, base + 1, nc), CapturesAfter(n.left, nc);
    ShiftSize(l, d);
    assert base + 2 + |l| + d == base + d + 2 + |l| && base + 1 + d == base + d + 1;
    AlternativesMove(l, Code(n.right, base + 2 + |l|, mc), base, d);
  }

  lemma CaptureMoves(n: Node, base: nat, nc: nat, d: nat)
    requires WellFormed(n) && n.Capture?
    requires Code(n.captured, base + 1 + d, nc + 1) == Shift(Code(n.captured, base + 1, nc + 1), d)
    ensures Code(n, base + d, nc) == Shift(Code(n, base, nc), d)
  {
    hide Shift, Code;
    CaptureCode(n, base, nc);
    CaptureCode(n, base + d, nc);
    assert base + 1 + d == base + d + 1;
    ShiftWrap(Save(2 * nc), Code(n.captured, base + 1, nc + 1), Save(2 * nc + 1), d);
  }

  lemma QuantifierMoves(n: Node, base: nat, nc: nat, d: nat)
    requires WellFormed(n) && n.Quantifier? && Relocates(CodeOf(n.quantified, nc))
    ensures Code(n, base + d, nc) == Shift(Code(n, base, nc), d)
  {
    hide Shift, Quantified, Relocates, Code;
    QuantifierCode(n, base, nc);
    QuantifierCode(n, base + d, nc);
    QuantifiedMoves(CodeOf(n.quantified, nc), base, n.nmin, n.nmax, n.greedy, d);
  }

  /** The code of a tree depends on its place only through its targets. */
  lemma {:induction false} CodeMoves(n: Node, base: nat, nc: nat, d: nat)
    requires WellFormed(n)
    ensures Code(n, base + d, nc) == Shift(Code(n, base, nc), d)
    decreases n, 0
  {
    hide Shift, Code, Relocates;
    match n
    case Concatenation(left, right) =>
      CodeMoves(left, base, nc, d);
      CodeMoves(right, base + |Code(left, base, nc)|, CapturesAfter(left, nc), d);
      ConcatenationMoves(n, base, nc, d);
    case Alternation(left, right) =>
      CodeMoves(left, base + 1, nc, d);
      CodeMoves(right, base + 2 + |Code(left, base + 1, nc)|, CapturesAfter(left, nc), d);
      AlternationMoves(n, base, nc, d);
    case Quantifier(_, _, _, q) =>
      CodeOfMoves(q, nc);
      QuantifierMoves(n, base, nc, d);
    case Capture(q) =>
      CodeMoves(q, base + 1, nc + 1, d);
      CaptureMoves(n, base, nc, d);
    case _ => LeafStays(n, base, nc, d);
  }

  lemma LeafStays(n: Node, base: nat, nc: nat, d: nat)
    requires WellFormed(n) && IsLeaf(n)
    ensures Code(n, base + d, nc) == Shift(Code(n, base, nc), d)
  {
    hide Shift;
    LeafMoves(n, d);
  }

  lemma LeafMoves(n: Node, d: nat)
    requires WellFormed(n) && IsLeaf(n)
    ensures Shift(LeafCode(n), d) == LeafCode(n)
  {
    hide Fill;
  }

  /** `part` is the code of the body moved up by `d`: in particular it saves to the same capture slots. */
  ghost predicate IsCopy(q: Node, nc: nat, base: nat, part: seq<Instr>, d: nat)
    requires WellFormed(q)
  {
    && part == Shift(Code(q, base, nc), d)
    && forall j :: 0 <= j < |part| ==>
         part[j].Save? == Code(q, base, nc)[j].Save? && (part[j].Save? ==> part[j] == Code(q, base, nc)[j])
  }

  lemma PlacedCopy(q: Node, nc: nat, base: nat, d: nat)
    requires WellFormed(q)
    ensures IsCopy(q, nc, base, CodeOf(q, nc)(base + d), d)
  {
    hide Shift, Code;
    CodeMoves(q, base, nc, d);
    ShiftSaves(Code(q, base, nc), d);
  }

  /** Copy `i` of `k` mandatory copies. */
  lemma {:induction false} CopyIs(q: Node, nc: nat, base: nat, k: nat, i: nat)
    requires WellFormed(q) && i < k
    ensures
      var num, all := |Code(q, base, nc)|, Copies(CodeOf(q, nc), base, k);
      0 <= i * num <= i * num + num <= |all| && IsCopy(q, nc, base, all[i * num..i * num + num], i * num)
    decreases k
  {
    hide Shift, Code, IsCopy, FixedLength, Copies;
    var g := CodeOf(q, nc);
    var num := |Code(q, base, nc)|;
    CodeOfFixed(q, nc, base);
    CopiesLength(g, base, k - 1, num);
    CopiesUnfold(g, base, k, num);
    var c, from := Copies(g, base, k - 1), i * num;
    CopyBound(i, k, num);
    if i < k - 1 {
      CopyIs(q, nc, base, k - 1, i);
      CopyBound(i, k - 1, num);
      SliceLeft(c, g(base + |c|), from, num);
    } else {
      PlacedCopy(q, nc, base, |c|);
      SliceRight(c, g(base + |c|));
    }
  }

  lemma CopiesUnfold(g: Generator, base: nat, k: nat, num: nat)
    requires k > 0 && FixedLength(g, num)
    ensures var c := Copies(g, base, k - 1); Copies(g, base, k) == c + g(base + |c|) && |g(base + |c|)| == num
  {
  }

  lemma OptionsUnfold(g: Generator, base: nat, greedy: bool, k: nat, num: nat)
    requires k > 0 && FixedLength(g, num)
    ensures
      var c := Options(g, base, greedy, k - 1);
      var split := [Branch(greedy, base + |c| + 1, base + |c| + 1 + num)];
      Options(g, base, greedy, k) == c + split + g(base + |c| + 1) && |g(base + |c| + 1)| == num
  {
  }

  lemma SliceLeft(a: seq<Instr>, b: seq<Instr>, from: nat, n: nat)
    requires from + n <= |a|
    ensures (a + b)[from..from + n] == a[from..from + n]
  {
  }

  lemma SliceRight(a: seq<Instr>, b: seq<Instr>)
    ensures (a + b)[|a|..|a| + |b|] == b
  {
  }

  /** Copy `i` of `k` optional copies, after its split. */
  lemma {:induction false} OptionIs(q: Node, nc: nat, base: nat, at: nat, greedy: bool, k: nat, i: nat)
    requires WellFormed(q) && i < k && base <= at
    ensures
      var num, all := |Code(q, base, nc)|, Options(CodeOf(q, nc), at, greedy, k);
      var from := i * (num + 1) + 1;
      0 <= from <= from + num <= |all| && IsCopy(q, nc, base, all[from..from + num], at - base + from)
    decreases k
  {
    hide Shift, Code, IsCopy, FixedLength, Options, Branch;
    var g := CodeOf(q, nc);
    var num := |Code(q, base, nc)|;
    CodeOfFixed(q, nc, base);
    OptionsLength(g, at, greedy, k - 1, num);
    OptionsUnfold(g, at, greedy, k, num);
    var c, from := Options(g, at, greedy, k - 1), i * (num + 1) + 1;
    var split, body := [Branch(greedy, at + |c| + 1, at + |c| + 1 + num)], g(at + |c| + 1);
    CopyBound(i, k, num + 1);
    if i < k - 1 {
      OptionIs(q, nc, base, at, greedy, k - 1, i);
      CopyBound(i, k - 1, num + 1);
      SliceLeft(c + split, body, from, num);
      SliceLeft(c, split, from, num);
    } else {
      PlacedCopy(q, nc, base, at - base + |c| + 1);
      assert base + (at - base + |c| + 1) == at + |c| + 1;
      SliceRight(c + split, body);
    }
  }

  /** The number of copies of the body of a quantifier, and where each starts. */
  function CopyCount(nmin: nat, nmax: int): nat
  {
    if nmax > nmin then nmax else if nmax == -1 && nmin == 0 then 1 else nmin
  }

  function CopyStart(nmin: nat, nmax: int, num: nat, i: nat): nat
  {
    if i < nmin then i * num
    else if nmax > nmin then nmin * num + ((i - nmin) * (num + 1) + 1)
    else 1
  }

  /** Every copy of a quantified body, mandatory, optional or in a loop, is the same code moved up, and
      saves to the same capture slots. */
  lemma QuantifiedCopies(q: Node, nc: nat, base: nat, nmin: nat, nmax: int, greedy: bool, i: nat)
    requires WellFormed(q) && i < CopyCount(nmin, nmax)
    ensures
      var num, all := |Code(q, base, nc)|, Quantified(CodeOf(q, nc), base, nmin, nmax, greedy);
      var from := CopyStart(nmin, nmax, num, i);
      from + num <= |all| && IsCopy(q, nc, base, all[from..from + num], from)
  {
    hide Quantified, Shift, Code, IsCopy;
    if i < nmin {
      MandatoryCopy(q, nc, base, nmin, nmax, greedy, i);
    } else if nmax > nmin {
      OptionalCopy(q, nc, base, nmin, nmax, greedy, i - nmin);
    } else {
      LoopCopy(q, nc, base, greedy);
    }
  }

  lemma MandatoryCopy(q: Node, nc: nat, base: nat, nmin: nat, nmax: int, greedy: bool, i: nat)
    requires WellFormed(q) && i < nmin
    ensures
      var num, all := |Code(q, base, nc)|, Quantified(CodeOf(q, nc), base, nmin, nmax, greedy);
      0 <= i * num <= i * num + num <= |all| && IsCopy(q, nc, base, all[i * num..i * num + num], i * num)
  {
    hide Shift, Code, IsCopy, Copies, Options;
    var g, num := CodeOf(q, nc), |Code(q, base, nc)|;
    var c, all := Copies(g, base, nmin), Quantified(g, base, nmin, nmax, greedy);
    CopyIs(q, nc, base, nmin, i);
    assert all == c + all[|c|..];
    SliceLeft(c, all[|c|..], i * num, num);
  }

  lemma OptionalCopy(q: Node, nc: nat, base: nat, nmin: nat, nmax: int, greedy: bool, k: nat)
    requires WellFormed(q) && k < nmax - nmin
    ensures
      var num, all := |Code(q, base, nc)|, Quantified(CodeOf(q, nc), base, nmin, nmax, greedy);
      var from := nmin * num + (k * (num + 1) + 1);
      0 <= from <= from + num <= |all| && IsCopy(q, nc, base, all[from..from + num], from)
  {
    hide Shift, Code, IsCopy, Copies, Options;
    var g, num := CodeOf(q, nc), |Code(q, base, nc)|;
    var c := Copies(g, base, nmin);
    CodeOfFixed(q, nc, base);
    CopiesLength(g, base, nmin, num);
    var o, from := Options(g, base + |c|, greedy, nmax - nmin), k * (num + 1) + 1;
    OptionIs(q, nc, base, base + |c|, greedy, nmax - nmin, k);
    SliceWithin(c, o, from, num);
  }

  lemma LoopCopy(q: Node, nc: nat, base: nat, greedy: bool)
    requires WellFormed(q)
    ensures
      var num, all := |Code(q, base, nc)|, Quantified(CodeOf(q, nc), base, 0, -1, greedy);
      1 + num <= |all| && IsCopy(q, nc, base, all[1..1 + num], 1)
  {
    hide Shift, Code, IsCopy;
    PlacedCopy(q, nc, base, 1);
    CodeOfFixed(q, nc, base);
    assert Quantified(CodeOf(q, nc), base, 0, -1, greedy)[1..1 + |Code(q, base, nc)|] == CodeOf(q, nc)(base + 1);
  }

  lemma SliceWithin(a: seq<Instr>, b: seq<Instr>, from: nat, n: nat)
    requires from + n <= |b|
    ensures (a + b)[|a| + from..|a| + from + n] == b[from..from + n]
  {
  }

  lemma CopyBound(i: nat, k: nat, num: nat)
    requires i < k
    ensures 0 <= i * num <= i * num + num <= k * num
  {
    assert (k - 1 - i) * num >= 0;
    assert k * num == i * num + num + (k - 1 - i) * num;
  }

  lemma CodeOfFixed(q: Node, nc: nat, base: nat)
    requires WellFormed(q)
    ensures FixedLength(CodeOf(q, nc), |Code(q, base, nc)|)
  {
    CodeOfLength(q, nc);
    CodeLength(q, base, nc);
  }

  lemma ShiftSaves(code: seq<Instr>, d: nat)
    ensures |Shift(code, d)| == |code|
    ensures forall j :: 0 <= j < |code| ==> Shift(code, d)[j].Save? == code[j].Save?
    ensures forall j :: 0 <= j < |code| && code[j].Save? ==> Shift(code, d)[j] == code[j]
  {
  }
}
