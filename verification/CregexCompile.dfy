/** The code generator (src/cregex_compile.c): instructions are emitted one by one into a program
    that was allocated beforehand, and the targets of splits and jumps are patched afterwards. */
module CregexCompile {
  import opened Wrappers
  import opened Cregex
  import opened CregexSemantics
  import opened CregexPaths
  import opened CregexCode
  import opened CregexProgram

  class CompileContext {
    var pc: nat
    var ncaptures: nat
    const program: array<Instr>

    ghost predicate Valid()
      reads this
    {
      pc <= program.Length
    }

    /** The instructions emitted so far. */
    ghost function Text(): (r: seq<Instr>)
      requires Valid()
      reads this, program
      ensures |r| == pc
    {
      program[..pc]
    }

    constructor (program: array<Instr>)
      ensures Valid() && pc == 0 && ncaptures == 0 && this.program == program
    {
      pc, ncaptures := 0, 0;
      this.program := program;
    }

    method Emit(ins: Instr) returns (at: nat)
      requires Valid() && pc < program.Length
      modifies this, program
      ensures Valid() && at == old(pc) && Text() == old(Text()) + [ins] && ncaptures == old(ncaptures)
    {
      program[pc] := ins;
      at := pc;
      pc := pc + 1;
    }
  }

  /** compile_char_class: the second walk over the text of a class ends at the bracket that the
      parser found, and fills the bitmap with the characters of the class. */
  method CompileCharClass(context: CompileContext, from: string, ghost len: nat, at: nat)
    requires context.Valid() && at < context.pc
    requires context.program[at].Class? || context.program[at].ClassNegated?
    requires context.program[at].klass == EMPTY_CLASS
    requires SevenBit(from) && ClassScan(from, 0, []).Closed? && ClassScan(from, 0, []).end == len
    modifies context.program
    ensures context.Text() == old(context.Text())[at := old(context.program[at]).(klass := Fill(ClassItems(from)))]
  {
    hide ClassScan, Fill, AddRange, Narrow;
    ghost var acc: seq<Range> := [];
    ghost var start := context.program[at];
    FillNone();
    var sp := 0;
    while true
      invariant sp <= |from| && Narrow(acc) && ClassScan(from, 0, []) == ClassScan(from, sp, acc)
      invariant context.program[at] == start.(klass := Fill(acc))
      invariant context.program[..context.pc] == old(context.program[..context.pc])[at := context.program[at]]
      decreases |from| - sp
    {
      ClassScanStep(from, sp, acc);
      var ch := CharAt(from, sp);
      sp := sp + 1;
      if ch == ']' && sp - 1 != 0 {
        return;
      }
      if ch == '\\' {
        ch := CharAt(from, sp);
        sp := sp + 1;
      }
      if CharAt(from, sp) == '-' && CharAt(from, sp + 1) != ']' {
        var hi := CharAt(from, sp + 1);
        FillMore(acc, ch, hi);
        AddRangeInPlace(context, at, ch as int, hi as int);
        acc := acc + [Range(ch, hi)];
        sp := sp + 2;
      } else {
        FillMore(acc, ch, ch);
        AddRangeInPlace(context, at, ch as int, ch as int);
        acc := acc + [Range(ch, ch)];
      }
    }
  }

  lemma FillNone()
    ensures Narrow([]) && Fill([]) == EMPTY_CLASS
  {
  }

  lemma FillMore(acc: seq<Range>, lo: char, hi: char)
    requires Narrow(acc) && hi as int < 128
    ensures Narrow(acc + [Range(lo, hi)])
    ensures Fill(acc + [Range(lo, hi)]) == AddRange(Fill(acc), lo as int, hi as int)
  {
    assert (acc + [Range(lo, hi)])[..|acc|] == acc;
  }

  /** One element of the text of a class that has a closing bracket. */
  lemma ClassScanStep(t: string, i: nat, acc: seq<Range>)
    requires SevenBit(t) && i <= |t| && ClassScan(t, i, acc).Closed?
    ensures i < |t|
    ensures t[i] == ']' && i > 0 ==> ClassScan(t, i, acc) == Closed(i, acc)
    ensures !(t[i] == ']' && i > 0) ==>
      var k := if t[i] == '\\' then i + 2 else i + 1;
      && k <= |t|
      && var ch := t[k - 1];
      if CharAt(t, k) == '-' && CharAt(t, k + 1) != ']' then
        && k + 2 <= |t| && ClassScan(t, i, acc) == ClassScan(t, k + 2, acc + [Range(ch, t[k + 1])])
      else
        ClassScan(t, i, acc) == ClassScan(t, k, acc + [Range(ch, ch)])
  {
  }

  /** The inner loop: sets the bits of a range, or of a single character. */
  method AddRangeInPlace(context: CompileContext, at: nat, lo: nat, hi: nat)
    requires context.Valid() && at < context.pc && hi < 256
    requires context.program[at].Class? || context.program[at].ClassNegated?
    modifies context.program
    ensures context.program[at] == old(context.program[at]).(klass := AddRange(old(context.program[at]).klass, lo, hi))
    ensures context.program[..context.pc] == old(context.program[..context.pc])[at := context.program[at]]
  {
    ghost var start := context.program[at];
    var ch := lo;
    while ch <= hi
      invariant context.program[at].Class? || context.program[at].ClassNegated?
      invariant context.program[at] == start.(klass := context.program[at].klass)
      invariant AddRange(start.klass, lo, hi) == AddRange(context.program[at].klass, ch, hi)
      invariant context.program[..context.pc] == old(context.program[..context.pc])[at := context.program[at]]
      decreases hi + 1 - ch
    {
      context.program[at] := context.program[at].(klass := ClassAdd(context.program[at].klass, ch));
      ch := ch + 1;
    }
  }

  /** There is room for the code of the tree. */
  ghost predicate Fits(context: CompileContext, n: Node)
    reads context
  {
    context.Valid() && context.pc + CountInstructions(n) <= context.program.Length
  }

  /** compile_context: emits the code of the tree after what was emitted before, and numbers its
      captures after those numbered before. */
  method Compile(context: CompileContext, n: Node) returns (bottom: nat)
    requires WellFormed(n) && Fits(context, n)
    modifies context, context.program
    ensures context.Valid() && bottom == old(context.pc)
    ensures context.Text() == old(context.Text()) + Code(n, bottom, old(context.ncaptures))
    ensures context.ncaptures == CapturesAfter(n, old(context.ncaptures))
    decreases n, 2
  {
    hide Code, CapturesAfter, CountInstructions;
    CodeLength(n, context.pc, context.ncaptures);
    bottom := context.pc;
    match n
    case Concatenation(left, right) => CompileConcatenation(context, n);
    case Alternation(left, right) => CompileAlternation(context, n);
    case Quantifier(_, _, _, _) => CompileQuantifier(context, n);
    case Capture(_) => CompileCapture(context, n);
    case _ => CompileLeaf(context, n);
  }

  method CompileLeaf(context: CompileContext, n: Node)
    requires WellFormed(n) && IsLeaf(n) && Fits(context, n)
    modifies context, context.program
    ensures context.Valid() && context.Text() == old(context.Text()) + Code(n, old(context.pc), old(context.ncaptures))
    ensures context.ncaptures == CapturesAfter(n, old(context.ncaptures))
  {
    if n.CharacterClass? {
      var ins := if n.negated then ClassNegated(EMPTY_CLASS) else Class(EMPTY_CLASS);
      var at := context.Emit(ins);
      CompileCharClass(context, n.from, n.len, at);
    } else if !n.Epsilon? {
      var ins := match n
        case Character(ch) => Char(ch)
        case AnchorBegin => AssertBegin
        case AnchorEnd => AssertEnd
        case _ => Any;
      var _ := context.Emit(ins);
    }
  }

  lemma ConcatenationParts(n: Node, base: nat, nc: nat)
    requires WellFormed(n) && n.Concatenation?
    ensures
      var l, mc := Code(n.left, base, nc), CapturesAfter(n.left, nc);
      var r := Code(n.right, base + |l|, mc);
      && Code(n, base, nc) == l + r
      && CapturesAfter(n, nc) == CapturesAfter(n.right, mc)
      && |l| == CountInstructions(n.left) && |r| == CountInstructions(n.right) && CountInstructions(n) == |l| + |r|
  {
    hide Code;
    ConcatenationCode(n, base, nc);
    CodeLength(n.left, base, nc);
    CodeLength(n.right, base + |Code(n.left, base, nc)|, CapturesAfter(n.left, nc));
  }

  lemma AlternationParts(n: Node, base: nat, nc: nat)
    requires WellFormed(n) && n.Alternation?
    ensures
      var l, mc := Code(n.left, base + 1, nc), CapturesAfter(n.left, nc);
      var r := Code(n.right, base + 2 + |l|, mc);
      && Code(n, base, nc) == Alternatives(l, r, base)
      && CapturesAfter(n, nc) == CapturesAfter(n.right, mc)
      && |l| == CountInstructions(n.left) && |r| == CountInstructions(n.right) && CountInstructions(n) == 2 + |l| + |r|
  {
    hide Code;
    AlternationCode(n, base, nc);
    CodeLength(n.left, base + 1, nc);
    CodeLength(n.right, base + 2 + |Code(n.left, base + 1, nc)|, CapturesAfter(n.left, nc));
  }

  lemma CaptureParts(n: Node, base: nat, nc: nat)
    requires WellFormed(n) && n.Capture?
    ensures
      var body := Code(n.captured, base + 1, nc + 1);
      && Code(n, base, nc) == Saved(body, nc)
      && CapturesAfter(n, nc) == CapturesAfter(n.captured, nc + 1)
      && |body| == CountInstructions(n.captured) && CountInstructions(n) == 2 + |body|
  {
    hide Code;
    CaptureCode(n, base, nc);
    CodeLength(n.captured, base + 1, nc + 1);
  }

  /** The parts of a quantifier and the room that they need. */
  lemma QuantifierParts(n: Node, base: nat, nc: nat)
    requires WellFormed(n) && n.Quantifier?
    ensures
      var g, num := CodeOf(n.quantified, nc), CountInstructions(n.quantified);
      && num >= 0 && FixedLength(g, num)
      && Code(n, base, nc) == Quantified(g, base, n.nmin, n.nmax, n.greedy)
      && CapturesAfter(n, nc) == (if n.nmax == 0 then nc else CapturesAfter(n.quantified, nc))
      && CountInstructions(n) ==
           (if n.nmax >= n.nmin then n.nmin * num + (n.nmax - n.nmin) * (num + 1)
            else 1 + (if n.nmin != 0 then n.nmin * num else num + 1))
      && |Copies(g, base, n.nmin)| == n.nmin * num
  {
    CodeOfLength(n.quantified, nc);
    CopiesLength(CodeOf(n.quantified, nc), base, n.nmin, CountInstructions(n.quantified));
  }

  method CompileConcatenation(context: CompileContext, n: Node)
    requires WellFormed(n) && n.Concatenation? && Fits(context, n)
    modifies context, context.program
    ensures context.Valid() && context.Text() == old(context.Text()) + Code(n, old(context.pc), old(context.ncaptures))
    ensures context.ncaptures == CapturesAfter(n, old(context.ncaptures))
    decreases n, 0
  {
    hide Code, CapturesAfter, CountInstructions;
    ghost var nc := context.ncaptures;
    ConcatenationParts(n, context.pc, nc);
    var left := Compile(context, n.left);
    var right := Compile(context, n.right);
    assert context.Text() ==
      old(context.Text()) + (Code(n.left, left, nc) + Code(n.right, right, CapturesAfter(n.left, nc)));
  }

  method CompileAlternation(context: CompileContext, n: Node)
    requires WellFormed(n) && n.Alternation? && Fits(context, n)
    modifies context, context.program
    ensures context.Valid() && context.Text() == old(context.Text()) + Code(n, old(context.pc), old(context.ncaptures))
    ensures context.ncaptures == CapturesAfter(n, old(context.ncaptures))
    decreases n, 1
  {
    hide Code, CapturesAfter, CountInstructions;
    AlternationParts(n, context.pc, context.ncaptures);
    var split, left, jump, right := CompileBoth(context, n);
    ghost var l := Code(n.left, left, old(context.ncaptures));
    ghost var r := Code(n.right, right, CapturesAfter(n.left, old(context.ncaptures)));
    ghost var text := context.Text();
    context.program[split] := Split(left, right);
    context.program[jump] := Jump(context.pc);
    assert context.Text() == text[split := Split(left, right)][jump := Jump(context.pc)];
    PatchAlternatives(old(context.Text()), l, r, Split(left, 0));
  }

  /** Both branches, with the target of the first split set and the others still open. */
  method CompileBoth(context: CompileContext, n: Node) returns (split: nat, left: nat, jump: nat, right: nat)
    requires WellFormed(n) && n.Alternation? && Fits(context, n)
    modifies context, context.program
    ensures context.Valid() && split == old(context.pc) && left == split + 1
    ensures
      var l, mc := Code(n.left, left, old(context.ncaptures)), CapturesAfter(n.left, old(context.ncaptures));
      && jump == left + |l| && right == jump + 1 && context.ncaptures == CapturesAfter(n.right, mc)
      && context.Text() == old(context.Text()) + [Split(left, 0)] + l + [Jump(0)] + Code(n.right, right, mc)
    decreases n, 0
  {
    hide Code, CapturesAfter, CountInstructions;
    ghost var nc := context.ncaptures;
    AlternationParts(n, context.pc, nc);
    split := context.Emit(Split(0, 0));
    left := Compile(context, n.left);
    ghost var text := context.Text();
    context.program[split] := Split(left, 0);
    assert context.Text() == text[split := Split(left, 0)];
    jump := context.Emit(Jump(0));
    right := Compile(context, n.right);
  }

  lemma PatchAlternatives(before: seq<Instr>, l: seq<Instr>, r: seq<Instr>, split: Instr)
    ensures
      var at, text := |before|, before + [split] + l + [Jump(0)] + r;
      text[at := Split(at + 1, at + 2 + |l|)][at + 1 + |l| := Jump(at + 2 + |l| + |r|)] ==
        before + Alternatives(l, r, at)
  {
  }

  method CompileCapture(context: CompileContext, n: Node)
    requires WellFormed(n) && n.Capture? && Fits(context, n)
    modifies context, context.program
    ensures context.Valid() && context.Text() == old(context.Text()) + Code(n, old(context.pc), old(context.ncaptures))
    ensures context.ncaptures == CapturesAfter(n, old(context.ncaptures))
    decreases n, 0
  {
    hide Code, CapturesAfter, CountInstructions;
    ghost var nc := context.ncaptures;
    var capture := context.ncaptures * 2;
    CaptureParts(n, context.pc, nc);
    context.ncaptures := context.ncaptures + 1;
    var _ := context.Emit(Save(capture));
    var body := Compile(context, n.captured);
    var _ := context.Emit(Save(capture + 1));
    assert context.Text() == old(context.Text()) + Saved(Code(n.captured, body, nc + 1), nc);
  }

  method CompileQuantifier(context: CompileContext, n: Node)
    requires WellFormed(n) && n.Quantifier? && Fits(context, n)
    modifies context, context.program
    ensures context.Valid() && context.Text() == old(context.Text()) + Code(n, old(context.pc), old(context.ncaptures))
    ensures context.ncaptures == CapturesAfter(n, old(context.ncaptures))
    decreases n, 0
  {
    hide Code, CapturesAfter, CountInstructions, Copies, Options, StarLoop, PlusLoop, FixedLength;
    QuantifierParts(n, context.pc, context.ncaptures);
    if n.nmax >= n.nmin {
      CompileInterval(context, n.quantified, n.nmin, n.nmax, n.greedy);
    } else if n.nmin == 0 {
      CompileStar(context, n.quantified, n.greedy);
    } else {
      CompilePlus(context, n.quantified, n.nmin, n.greedy);
    }
  }

  /** The case of a bounded quantifier. */
  method CompileInterval(context: CompileContext, q: Node, nmin: nat, nmax: nat, greedy: bool)
    requires WellFormed(q) && context.Valid() && CountInstructions(q) >= 0 && nmin <= nmax
    requires context.pc + nmin * CountInstructions(q) +
      (nmax - nmin) * (CountInstructions(q) + 1) <= context.program.Length
    modifies context, context.program
    ensures context.Valid()
    ensures context.Text() ==
      old(context.Text()) + Quantified(CodeOf(q, old(context.ncaptures)), old(context.pc), nmin, nmax, greedy)
    ensures context.ncaptures ==
      if nmax == 0 then old(context.ncaptures) else CapturesAfter(q, old(context.ncaptures))
    decreases q, 6
  {
    hide Code, CapturesAfter, CountInstructions, Copies, Options, FixedLength;
    var ncaptures := context.ncaptures;
    ghost var g, base := CodeOf(q, ncaptures), context.pc;
    CodeOfLength(q, ncaptures);
    CopiesLength(g, base, nmin, CountInstructions(q));
    Products(nmax - nmin, CountInstructions(q) + 1);
    var _ := CompileCopies(context, q, nmin);
    if nmax > nmin {
      ghost var reps := Copies(g, base, nmin);
      CompileOptions(context, q, ncaptures, nmax - nmin, greedy);
      assert context.Text() == old(context.Text()) + (reps + Options(g, base + |reps|, greedy, nmax - nmin));
    }
  }

  lemma Products(a: nat, b: nat)
    ensures a * b >= 0
  {
  }

  /** The case of an unbounded quantifier with mandatory copies: the last one is the loop. */
  method CompilePlus(context: CompileContext, q: Node, nmin: nat, greedy: bool)
    requires WellFormed(q) && context.Valid() && CountInstructions(q) >= 0 && nmin > 0
    requires context.pc + nmin * CountInstructions(q) + 1 <= context.program.Length
    modifies context, context.program
    ensures context.Valid()
    ensures context.Text() ==
      old(context.Text()) + PlusLoop(CodeOf(q, old(context.ncaptures)), old(context.pc), greedy, nmin)
    ensures context.ncaptures == CapturesAfter(q, old(context.ncaptures))
    decreases q, 6
  {
    hide Code, CapturesAfter, CountInstructions, Copies, FixedLength;
    ghost var g, base := CodeOf(q, context.ncaptures), context.pc;
    CodeOfLength(q, context.ncaptures);
    CopiesLength(g, base, nmin, CountInstructions(q));
    var last := CompileCopies(context, q, nmin);
    CompileLoopBack(context, last, greedy);
    assert context.Text() == old(context.Text()) + (Copies(g, base, nmin) + [Branch(greedy, last, context.pc)]);
  }

  method CompileCopies(context: CompileContext, q: Node, k: nat) returns (last: nat)
    requires WellFormed(q) && context.Valid() && CountInstructions(q) >= 0
    requires context.pc + k * CountInstructions(q) <= context.program.Length
    modifies context, context.program
    ensures context.Valid()
    ensures
      var g := CodeOf(q, old(context.ncaptures));
      && context.Text() == old(context.Text()) + Copies(g, old(context.pc), k)
      && (k > 0 ==> last == old(context.pc) + |Copies(g, old(context.pc), k - 1)|)
    ensures context.ncaptures == if k > 0 then CapturesAfter(q, old(context.ncaptures)) else old(context.ncaptures)
    decreases q, 3
  {
    hide Code, CapturesAfter, CountInstructions, Copies, FixedLength;
    var ncaptures := context.ncaptures;
    ghost var g := CodeOf(q, ncaptures);
    ghost var base := context.pc;
    ghost var text := context.Text();
    last := 0;
    CodeOfLength(q, ncaptures);
    CopiesMore(g, base, 0);
    assert text + [] == text;
    for i := 0 to k
      invariant context.Valid() && context.Text() == text + Copies(g, base, i)
      invariant i > 0 ==> last == base + |Copies(g, base, i - 1)|
      invariant context.ncaptures == if i > 0 then CapturesAfter(q, ncaptures) else ncaptures
    {
      CopiesLength(g, base, i, CountInstructions(q));
      Room(i, k, CountInstructions(q));
      context.ncaptures := ncaptures;
      last := Compile(context, q);
      CopiesMore(g, base, i);
      assert context.Text() == text + (Copies(g, base, i) + g(base + |Copies(g, base, i)|));
    }
  }

  /** The split that goes back to the last mandatory copy. */
  method CompileLoopBack(context: CompileContext, last: nat, greedy: bool)
    requires context.Valid() && context.pc < context.program.Length
    modifies context, context.program
    ensures context.Valid() && context.ncaptures == old(context.ncaptures)
    ensures context.Text() == old(context.Text()) + [Branch(greedy, last, old(context.pc) + 1)]
  {
    var split := context.Emit(Split(0, 0));
    context.program[split] := if greedy then Split(last, context.pc) else Split(context.pc, last);
  }

  lemma CopiesMore(g: Generator, base: nat, i: nat)
    ensures Copies(g, base, 0) == []
    ensures Copies(g, base, i + 1) == Copies(g, base, i) + g(base + |Copies(g, base, i)|)
  {
  }

  lemma OptionsMore(g: Generator, base: nat, greedy: bool, i: nat)
    ensures Options(g, base, greedy, 0) == []
    ensures Options(g, base, greedy, i + 1) ==
      Options(g, base, greedy, i) + OptionCopy(g, base + |Options(g, base, greedy, i)|, greedy)
  {
  }

  lemma Room(i: nat, k: nat, num: nat)
    requires i < k
    ensures i * num + num <= k * num
  {
    assert (i + 1) * num <= k * num;
  }

  method CompileOptions(context: CompileContext, q: Node, ncaptures: nat, k: nat, greedy: bool)
    requires WellFormed(q) && context.Valid() && CountInstructions(q) >= 0 && k > 0
    requires context.pc + k * (CountInstructions(q) + 1) <= context.program.Length
    modifies context, context.program
    ensures context.Valid()
    ensures context.Text() == old(context.Text()) + Options(CodeOf(q, ncaptures), old(context.pc), greedy, k)
    ensures context.ncaptures == CapturesAfter(q, ncaptures)
    decreases q, 4
  {
    hide Code, CapturesAfter, CountInstructions, Options, OptionCopy, FixedLength;
    ghost var g := CodeOf(q, ncaptures);
    ghost var base := context.pc;
    ghost var text := context.Text();
    CodeOfLength(q, ncaptures);
    OptionsMore(g, base, greedy, 0);
    assert text + [] == text;
    for i := 0 to k
      invariant context.Valid() && context.Text() == text + Options(g, base, greedy, i)
      invariant i > 0 ==> context.ncaptures == CapturesAfter(q, ncaptures)
    {
      OptionsLength(g, base, greedy, i, CountInstructions(q));
      Room(i, k, CountInstructions(q) + 1);
      context.ncaptures := ncaptures;
      CompileOption(context, q, greedy);
      OptionsMore(g, base, greedy, i);
      assert context.Text() ==
        text + (Options(g, base, greedy, i) + OptionCopy(g, base + |Options(g, base, greedy, i)|, greedy));
    }
  }

  method CompileOption(context: CompileContext, q: Node, greedy: bool)
    requires WellFormed(q) && context.Valid() && context.pc + CountInstructions(q) + 1 <= context.program.Length
    modifies context, context.program
    ensures context.Valid()
    ensures context.Text() ==
      old(context.Text()) + OptionCopy(CodeOf(q, old(context.ncaptures)), old(context.pc), greedy)
    ensures context.ncaptures == CapturesAfter(q, old(context.ncaptures))
    decreases q, 3
  {
    hide Code, CapturesAfter, CountInstructions;
    CodeLength(q, context.pc, context.ncaptures);
    ghost var nc := context.ncaptures;
    var split := context.Emit(Split(0, 0));
    var first := Compile(context, q);
    context.program[split] := if greedy then Split(first, context.pc) else Split(context.pc, first);
    ghost var body := CodeOf(q, nc)(split + 1);
    assert context.Text() == old(context.Text()) + ([Branch(greedy, split + 1, split + 1 + |body|)] + body);
  }

  lemma PatchLoop(before: seq<Instr>, body: seq<Instr>, greedy: bool)
    ensures
      var at, text := |before|, before + [Split(0, 0)] + body + [Jump(0)];
      text[at := Branch(greedy, at + 1, at + 2 + |body|)][at + 1 + |body| := Jump(at)] ==
        before + ([Branch(greedy, at + 1, at + 2 + |body|)] + body + [Jump(at)])
  {
  }

  method CompileStar(context: CompileContext, q: Node, greedy: bool)
    requires WellFormed(q) && context.Valid() && context.pc + CountInstructions(q) + 2 <= context.program.Length
    modifies context, context.program
    ensures context.Valid()
    ensures context.Text() == old(context.Text()) + StarLoop(CodeOf(q, old(context.ncaptures)), old(context.pc), greedy)
    ensures context.ncaptures == CapturesAfter(q, old(context.ncaptures))
    decreases q, 3
  {
    hide Code, CapturesAfter, CountInstructions;
    CodeLength(q, context.pc, context.ncaptures);
    CodeLength(q, context.pc + 1, context.ncaptures);
    ghost var nc := context.ncaptures;
    var split := context.Emit(Split(0, 0));
    var first := Compile(context, q);
    var jump := context.Emit(Jump(0));
    ghost var body := Code(q, split + 1, nc);
    ghost var text := old(context.Text()) + [Split(0, 0)] + body + [Jump(0)];
    assert context.Text() == text;
    context.program[split] := if greedy then Split(first, context.pc) else Split(context.pc, first);
    context.program[jump] := Jump(split);
    assert context.Text() == text[split := Branch(greedy, first, context.pc)][jump := Jump(split)];
    PatchLoop(old(context.Text()), body, greedy);
    assert StarLoop(CodeOf(q, nc), split, greedy) ==
      [Branch(greedy, split + 1, split + 2 + |body|)] + body + [Jump(split)];
  }

  /** compile_node_with_program: the program has exactly the estimated size. */
  method CompileNode(root: Node) returns (program: array<Instr>)
    requires WellFormed(root)
    ensures fresh(program) && program[..] == Assemble(root) && program.Length == EstimateInstructions(root)
  {
    hide Code, CapturesAfter, CountInstructions, Linked, WellFormed, Prefixed;
    AssembleLinked(root);
    PrefixedLength(root);
    CodeLength(Prefixed(root), 0, 0);
    program := new Instr[EstimateInstructions(root)](_ => Match);
    var context := new CompileContext(program);
    var _ := Compile(context, Prefixed(root));
    var _ := context.Emit(Match);
    assert program[..] == context.Text();
  }
}
