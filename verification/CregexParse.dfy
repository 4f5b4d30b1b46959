/** The parser (src/cregex_parse.c): a shunting-yard algorithm over one buffer of nodes, whose
    stack grows up from the start of the buffer and whose output grows down from its end. */
module CregexParse {
  import opened Wrappers
  import opened Cregex
  import opened CregexSemantics
  import opened CregexGrammar

  /** A node in the buffer: its children are indices, and a class is a pair of offsets. */
  datatype Cell =
    | CellEpsilon
    | CellCharacter(ch: char)
    | CellAny
    | CellClass(negated: bool, from: nat, to: nat)
    | CellConcatenation(left: nat, right: nat)
    | CellAlternation(left: nat, right: nat)
    | CellQuantifier(nmin: nat, nmax: int, greedy: bool, quantified: nat)
    | CellBegin
    | CellEnd
    | CellCapture(captured: nat)

  /** The children of a cell lie between two indices, and a class inside the pattern. */
  predicate ChildrenIn(c: Cell, lo: int, hi: nat, size: nat)
  {
    match c
    case CellConcatenation(left, right) => lo <= left < hi && lo <= right < hi
    case CellAlternation(left, right) => lo <= left < hi && lo <= right < hi
    case CellQuantifier(_, _, _, q) => lo <= q < hi
    case CellCapture(q) => lo <= q < hi
    case CellClass(_, from, to) => from <= to <= size
    case _ => true
  }

  /** From `lo` on, children always come after their parents. */
  ghost predicate Ordered(cells: seq<Cell>, lo: nat, size: nat)
  {
    forall k :: lo <= k < |cells| ==> ChildrenIn(cells[k], k + 1, |cells|, size)
  }

  /** The tree rooted at a cell. */
  function Tree(p: string, cells: seq<Cell>, lo: nat, c: Cell): Node
    requires Ordered(cells, lo, |p|) && ChildrenIn(c, lo, |cells|, |p|)
    decreases |cells| - lo
  {
    match c
    case CellEpsilon => Epsilon
    case CellCharacter(ch) => Character(ch)
    case CellAny => AnyCharacter
    case CellClass(negated, from, to) => CharacterClass(negated, p[from..], to - from)
    case CellConcatenation(left, right) => Concatenation(TreeAt(p, cells, left), TreeAt(p, cells, right))
    case CellAlternation(left, right) => Alternation(TreeAt(p, cells, left), TreeAt(p, cells, right))
    case CellQuantifier(nmin, nmax, greedy, q) => Quantifier(nmin, nmax, greedy, TreeAt(p, cells, q))
    case CellBegin => AnchorBegin
    case CellEnd => AnchorEnd
    case CellCapture(q) => Capture(TreeAt(p, cells, q))
  }

  /** The tree rooted at an index of the ordered part of the buffer. */
  function TreeAt(p: string, cells: seq<Cell>, k: nat): Node
    requires k < |cells| && Ordered(cells, k, |p|)
    decreases |cells| - k, 0
  {
    Tree(p, cells, k + 1, cells[k])
  }

  /** The tree of a cell depends only on the cells from `lo` on. */
  lemma {:induction false} TreeFrame(p: string, a: seq<Cell>, b: seq<Cell>, lo: nat, c: Cell)
    requires |a| == |b| && Ordered(a, lo, |p|) && ChildrenIn(c, lo, |a|, |p|)
    requires forall k :: lo <= k < |a| ==> a[k] == b[k]
    ensures Ordered(b, lo, |p|) && Tree(p, a, lo, c) == Tree(p, b, lo, c)
    decreases |a| - lo
  {
    match c
    case CellConcatenation(left, right) =>
      TreeFrame(p, a, b, left + 1, a[left]);
      TreeFrame(p, a, b, right + 1, a[right]);
    case CellAlternation(left, right) => TreeFrame(p, a, b, left + 1, a[left]); TreeFrame(p, a, b, right + 1, a[right]);
    case CellQuantifier(_, _, _, q) => TreeFrame(p, a, b, q + 1, a[q]);
    case CellCapture(q) => TreeFrame(p, a, b, q + 1, a[q]);
    case _ =>
  }

  ghost function TreesOf(p: string, cells: seq<Cell>, top: seq<Cell>, lo: nat): (r: seq<Node>)
    requires Ordered(cells, lo, |p|) && forall k :: 0 <= k < |top| ==> ChildrenIn(top[k], lo, |cells|, |p|)
    ensures |r| == |top| && forall k :: 0 <= k < |top| ==> r[k] == Tree(p, cells, lo, top[k])
  {
    seq(|top|, k requires 0 <= k < |top| => Tree(p, cells, lo, top[k]))
  }

  class ParseContext {
    const pattern: string
    const nodes: array<Cell>
    var sp: nat
    var stack: nat
    var output: nat

    ghost predicate Valid()
      reads this`stack, this`output, nodes
    {
      && SevenBit(pattern)
      && stack <= output <= nodes.Length
      && Ordered(nodes[..], output, |pattern|)
      && forall k :: 0 <= k < stack ==> ChildrenIn(nodes[k], output, nodes.Length, |pattern|)
    }

    /** The trees on the stack, from the bottom up. */
    ghost function Trees(): (r: seq<Node>)
      requires Valid()
      reads this`stack, this`output, nodes
      ensures |r| == stack
      ensures forall k :: 0 <= k < stack ==> r[k] == Tree(pattern, nodes[..], output, nodes[k])
    {
      TreesOf(pattern, nodes[..], nodes[..stack], output)
    }

    /** The tree that a cell stands for, given the output. */
    ghost function Denotes(c: Cell): Node
      requires Valid() && ChildrenIn(c, output, nodes.Length, |pattern|)
      reads this`stack, this`output, nodes
    {
      Tree(pattern, nodes[..], output, c)
    }

    /** The tree in the output at an index. */
    ghost function Output(at: nat): Node
      requires Valid() && output <= at < nodes.Length
      reads this`stack, this`output, nodes
    {
      TreeAt(pattern, nodes[..], at)
    }

    /** Twice the nodes on the stack plus the nodes in the output. */
    ghost function Weight(): int
      reads this`stack, this`output
    {
      2 * stack + nodes.Length - output
    }

    constructor (pattern: string)
      requires SevenBit(pattern)
      ensures Valid() && fresh(nodes) && this.pattern == pattern && nodes.Length == 2 * |pattern|
      ensures sp == 0 && stack == 0 && output == nodes.Length
    {
      this.pattern := pattern;
      nodes := new Cell[2 * |pattern|](_ => CellEpsilon);
      sp, stack, output := 0, 0, 2 * |pattern|;
    }

    method Push(c: Cell)
      requires Valid() && stack < output && ChildrenIn(c, output, nodes.Length, |pattern|)
      modifies this`stack, nodes
      ensures Valid() && stack == old(stack) + 1
      ensures Trees() == old(Trees()) + [old(Denotes(c))]
    {
      ghost var before := nodes[..];
      nodes[stack] := c;
      stack := stack + 1;
      forall k | 0 <= k < stack
        ensures Tree(pattern, nodes[..], output, nodes[k]) == if k < stack - 1 then old(Trees())[k] else old(Denotes(c))
      {
        TreeFrame(pattern, before, nodes[..], output, nodes[k]);
      }
    }

    method Drop()
      requires Valid() && stack > 0
      modifies this`stack
      ensures Valid() && stack == old(stack) - 1 && Trees() == old(Trees())[..stack]
    {
      stack := stack - 1;
    }

    /** Moves the top of the stack to the output. */
    method Consume() returns (at: nat)
      requires Valid() && stack > 0 && stack < output
      modifies this`stack, this`output, nodes
      ensures Valid() && stack == old(stack) - 1 && at == output == old(output) - 1
      ensures Trees() == old(Trees())[..stack] && Output(at) == old(Trees())[stack]
      ensures forall k :: old(output) <= k < nodes.Length ==> Output(k) == old(Output(k))
    {
      ghost var before := nodes[..];
      ghost var old_output := output;
      output := output - 1;
      stack := stack - 1;
      nodes[output] := nodes[stack];
      at := output;
      assert forall k :: old_output <= k < nodes.Length ==> nodes[k] == before[k];
      assert nodes[output] == before[stack];
      forall k | 0 <= k <= stack
        ensures Tree(pattern, nodes[..], old_output, before[k]) == old(Trees())[k]
      {
        TreeFrame(pattern, before, nodes[..], old_output, before[k]);
      }
      forall k | old_output <= k < nodes.Length
        ensures TreeAt(pattern, nodes[..], k) == TreeAt(pattern, before, k)
      {
        TreeFrame(pattern, before, nodes[..], k + 1, before[k]);
      }
    }

    /** Replaces the top of the stack by a quantifier over it. */
    method PushQuantifier(nmin: nat, nmax: int, greedy: bool)
      requires Valid() && 0 < stack < output
      modifies this`stack, this`output, nodes
      ensures Valid() && stack == old(stack) && output == old(output) - 1
      ensures Trees() == old(Trees())[..stack - 1] + [Quantifier(nmin, nmax, greedy, old(Trees())[stack - 1])]
    {
      hide Ordered, ChildrenIn, Tree;
      var q := Consume();
      QuantifierCell(nmin, nmax, greedy, q);
      Push(CellQuantifier(nmin, nmax, greedy, q));
    }

    lemma QuantifierCell(nmin: nat, nmax: int, greedy: bool, q: nat)
      requires Valid() && output <= q < nodes.Length
      ensures ChildrenIn(CellQuantifier(nmin, nmax, greedy, q), output, nodes.Length, |pattern|)
      ensures Denotes(CellQuantifier(nmin, nmax, greedy, q)) == Quantifier(nmin, nmax, greedy, Output(q))
    {
    }

    /** Replaces the top of the stack by a capture of it. */
    method PushCapture()
      requires Valid() && 0 < stack < output
      modifies this`stack, this`output, nodes
      ensures Valid() && stack == old(stack) && output == old(output) - 1
      ensures Trees() == old(Trees())[..stack - 1] + [Capture(old(Trees())[stack - 1])]
    {
      hide Ordered, ChildrenIn, Tree;
      var q := Consume();
      CaptureCell(q);
      Push(CellCapture(q));
    }

    lemma CaptureCell(q: nat)
      requires Valid() && output <= q < nodes.Length
      ensures ChildrenIn(CellCapture(q), output, nodes.Length, |pattern|)
      ensures Denotes(CellCapture(q)) == Capture(Output(q))
    {
    }

    /** Replaces the two topmost trees by one. */
    method PushPair(alternation: bool)
      requires Valid() && 1 < stack < output
      modifies this`stack, this`output, nodes
      ensures Valid() && stack == old(stack) - 1 && output == old(output) - 2
      ensures
        var l, r := old(Trees())[stack - 1], old(Trees())[stack];
        Trees() == old(Trees())[..stack - 1] + [if alternation then Alternation(l, r) else Concatenation(l, r)]
    {
      hide Ordered, ChildrenIn, Tree;
      var right := Consume();
      var left := Consume();
      PairCells(left, right);
      assert old(Trees())[..stack + 1][..stack] == old(Trees())[..stack];
      if alternation {
        Push(CellAlternation(left, right));
      } else {
        Push(CellConcatenation(left, right));
      }
    }

    lemma PairCells(left: nat, right: nat)
      requires Valid() && output <= left < nodes.Length && output <= right < nodes.Length
      ensures ChildrenIn(CellAlternation(left, right), output, nodes.Length, |pattern|)
      ensures ChildrenIn(CellConcatenation(left, right), output, nodes.Length, |pattern|)
      ensures Denotes(CellAlternation(left, right)) == Alternation(Output(left), Output(right))
      ensures Denotes(CellConcatenation(left, right)) == Concatenation(Output(left), Output(right))
    {
    }

    /** concatenate: the trees above `bottom` become one. */
    method Concatenate(bottom: nat)
      requires Valid() && bottom <= stack
      requires if stack == bottom then Weight() < nodes.Length + bottom else Weight() <= nodes.Length + bottom + 1
      modifies this`stack, this`output, nodes
      ensures Valid() && stack == bottom + 1
      ensures Trees() == old(Trees())[..bottom] + [Concat(old(Trees())[bottom..])]
      ensures Weight() == if old(stack) == bottom then old(Weight()) + 2 else old(Weight())
    {
      hide Ordered, ChildrenIn, Concat, Tree;
      ghost var trees := Trees();
      ConcatStep(trees, bottom);
      if stack == bottom {
        LeafCell(CellEpsilon);
        Push(CellEpsilon);
      } else {
        ConcatStep(trees, stack - 1);
        while stack - 1 > bottom
          invariant Valid() && bottom < stack <= |trees| && Weight() == old(Weight())
          invariant forall j :: 0 <= j < stack - 1 ==> Trees()[j] == trees[j]
          invariant Trees()[stack - 1] == Concat(trees[stack - 1..])
        {
          PushConcatenation(trees);
        }
      }
    }

    /** One round of concatenate: the two topmost trees become one. */
    method PushConcatenation(ghost trees: seq<Node>)
      requires Valid() && 1 < stack < output && stack <= |trees|
      requires forall j :: 0 <= j < stack - 1 ==> Trees()[j] == trees[j]
      requires Trees()[stack - 1] == Concat(trees[stack - 1..])
      modifies this`stack, this`output, nodes
      ensures Valid() && stack == old(stack) - 1 && output == old(output) - 2
      ensures forall j :: 0 <= j < stack - 1 ==> Trees()[j] == trees[j]
      ensures Trees()[stack - 1] == Concat(trees[stack - 1..])
    {
      hide Ordered, ChildrenIn, Concat, Tree;
      ConcatStep(trees, stack - 2);
      PushPair(false);
    }

    static lemma ConcatStep(trees: seq<Node>, k: nat)
      requires k <= |trees|
      ensures k == |trees| ==> Concat(trees[k..]) == Epsilon
      ensures k + 1 == |trees| ==> Concat(trees[k..]) == trees[k]
      ensures k + 1 < |trees| ==> Concat(trees[k..]) == Concatenation(trees[k], Concat(trees[k + 1..]))
    {
      assert k < |trees| ==> trees[k..][1..] == trees[k + 1..];
    }

    lemma LeafCell(c: Cell)
      requires Valid()
      requires c.CellEpsilon? || c.CellCharacter? || c.CellAny? || c.CellBegin? || c.CellEnd?
      ensures ChildrenIn(c, output, nodes.Length, |pattern|)
      ensures Denotes(c) ==
        match c
        case CellCharacter(ch) => Character(ch)
        case CellAny => AnyCharacter
        case CellBegin => AnchorBegin
        case CellEnd => AnchorEnd
        case _ => Epsilon
    {
    }

    /** The end of the case of an alternation: an empty side makes the other one optional. */
    method FoldTop()
      requires Valid() && 1 < stack
      requires stack < output || (Trees()[stack - 1].Epsilon? && Trees()[stack - 2].Epsilon?)
      modifies this`stack, this`output, nodes
      ensures Valid() && stack == old(stack) - 1
      ensures Trees() == old(Trees())[..stack - 1] + [FoldAlternation(old(Trees())[stack - 1], old(Trees())[stack])]
      ensures
        var l, r := old(Trees())[stack - 1].Epsilon?, old(Trees())[stack].Epsilon?;
        Weight() == old(Weight()) - (if l && r then 2 else if l || r then 1 else 0)
    {
      hide Ordered, ChildrenIn, Tree;
      TopCells();
      var left, right := nodes[stack - 2].CellEpsilon?, nodes[stack - 1].CellEpsilon?;
      if left && right {
        Drop();
      } else if left {
        FoldLeft();
      } else if right {
        Drop();
        PushQuantifier(0, 1, true);
      } else {
        PushPair(true);
      }
    }

    /** The left alternative is empty: the right one becomes optional. */
    method FoldLeft()
      requires Valid() && 1 < stack < output && Trees()[stack - 2].Epsilon? && !Trees()[stack - 1].Epsilon?
      modifies this`stack, this`output, nodes
      ensures Valid() && stack == old(stack) - 1 && Weight() == old(Weight()) - 1
      ensures Trees() == old(Trees())[..stack - 1] + [FoldAlternation(old(Trees())[stack - 1], old(Trees())[stack])]
    {
      hide Ordered, ChildrenIn, Tree;
      var r := Consume();
      Drop();
      QuantifierCell(0, 1, true, r);
      Push(CellQuantifier(0, 1, true, r));
    }

    lemma TopCells()
      requires Valid() && 1 < stack
      ensures nodes[stack - 1].CellEpsilon? <==> Trees()[stack - 1].Epsilon?
      ensures nodes[stack - 2].CellEpsilon? <==> Trees()[stack - 2].Epsilon?
    {
    }

    // ----- Classes and intervals -----

    /** The loop of parse_char_class, from the start of the class text. */
    method ScanClass(from: nat) returns (r: Status)
      requires SevenBit(pattern) && sp == from <= |pattern|
      modifies this`sp
      ensures
        match ClassScan(pattern[from..], 0, [])
        case Closed(len, _) => r == Parsed && sp == from + len + 1
        case Overrun => r == OutOfBounds
        case _ => r == Null
    {
      hide ClassScan;
      ghost var t := pattern[from..];
      ghost var acc: seq<Range> := [];
      while true
        invariant from <= sp <= |pattern|
        invariant ClassScan(t, 0, []) == ClassScan(t, sp - from, acc)
        decreases |pattern| - sp
      {
        ClassScanUnfold(t, sp - from, acc);
        var ch := CharAt(pattern, sp);
        sp := sp + 1;
        if ch == NUL {
          return Null;
        }
        if ch == ']' && sp - 1 != from {
          return Parsed;
        }
        if ch == '\\' {
          ch := CharAt(pattern, sp);
          sp := sp + 1;
          if ch == NUL {
            return OutOfBounds;
          }
        }
        if CharAt(pattern, sp) == '-' && CharAt(pattern, sp + 1) != ']' {
          if CharAt(pattern, sp + 1) < ch {
            return Null;
          }
          acc := acc + [Range(ch, CharAt(pattern, sp + 1))];
          sp := sp + 2;
        } else {
          acc := acc + [Range(ch, ch)];
        }
      }
    }

    /** parse_char_class, after the opening bracket. */
    method ParseCharClass() returns (r: Status)
      requires Valid() && sp <= |pattern| && stack < output
      modifies this`sp, this`stack, nodes
      ensures Valid()
      ensures
        match ClassNode(pattern, old(sp))
        case Done(end, node) =>
          r == Parsed && sp == end && stack == old(stack) + 1 && Trees() == old(Trees()) + [node]
        case Bad => r == Null
        case Beyond => r == OutOfBounds
    {
      hide ClassScan, Ordered, ChildrenIn;
      var negated := CharAt(pattern, sp) == '^';
      if negated {
        sp := sp + 1;
      }
      var from := sp;
      r := ScanClass(from);
      if r == Parsed {
        ClassCell(negated, from, sp - 1);
        Push(CellClass(negated, from, sp - 1));
      }
    }

    lemma ClassCell(negated: bool, from: nat, to: nat)
      requires Valid() && from <= to <= |pattern|
      ensures ChildrenIn(CellClass(negated, from, to), output, nodes.Length, |pattern|)
      ensures Denotes(CellClass(negated, from, to)) == CharacterClass(negated, pattern[from..], to - from)
    {
    }

    /** A number of parse_interval. */
    method ReadNumber() returns (n: nat)
      requires sp <= |pattern|
      modifies this`sp
      ensures old(sp) <= sp <= |pattern| && (n, sp) == Digits(pattern, old(sp), 0)
    {
      n := 0;
      while IsDigit(CharAt(pattern, sp))
        invariant old(sp) <= sp <= |pattern| && Digits(pattern, old(sp), 0) == Digits(pattern, sp, n)
        decreases |pattern| - sp
      {
        n := n * 10 + (CharAt(pattern, sp) as int - '0' as int);
        sp := sp + 1;
      }
    }

    /** The part of parse_interval that reads the bounds; on failure the position is restored. */
    method ReadBounds() returns (r: Option<(nat, int)>)
      requires sp <= |pattern|
      modifies this`sp
      ensures
        match Interval(pattern, old(sp))
        case Some(b) => r == Some((b.nmin, b.nmax)) && sp == b.end
        case None => r == None && sp == old(sp)
    {
      hide Digits;
      var from := sp;
      var nmin := ReadNumber();
      var nmax: int;
      if CharAt(pattern, sp) == ',' {
        sp := sp + 1;
        if CharAt(pattern, from) != ',' && CharAt(pattern, sp) == '}' {
          nmax := -1;
        } else {
          nmax := ReadNumber();
          if CharAt(pattern, sp - 1) == ',' || CharAt(pattern, sp) != '}' || nmax < nmin {
            sp := from;
            return None;
          }
        }
      } else if CharAt(pattern, from) != '}' && CharAt(pattern, sp) == '}' {
        nmax := nmin;
      } else {
        sp := from;
        return None;
      }
      sp := sp + 1;
      r := Some((nmin, nmax));
    }

    /** parse_interval, after the opening brace: on failure nothing has changed. */
    method ParseInterval() returns (ok: bool)
      requires Valid() && sp <= |pattern| && 0 < stack < output
      modifies this`sp, this`stack, this`output, nodes
      ensures Valid() && ok == Interval(pattern, old(sp)).Some? && stack == old(stack)
      ensures !ok ==> sp == old(sp) && output == old(output) && Trees() == old(Trees())
      ensures ok ==>
        var b := Interval(pattern, old(sp)).value;
        var q := Quantify(pattern, b.end, [old(Trees())[stack - 1]], b.nmin, b.nmax);
        sp == q.0 && output == old(output) - 1 && Trees() == old(Trees())[..stack - 1] + q.1
    {
      hide Interval, Quantify;
      var bounds := ReadBounds();
      ok := bounds.Some?;
      if ok {
        PushGreedy(bounds.value.0, bounds.value.1);
      }
    }

    /** A quantifier over the top of the stack, lazy when a question mark follows. */
    method PushGreedy(nmin: nat, nmax: int)
      requires Valid() && sp <= |pattern| && 0 < stack < output
      modifies this`sp, this`stack, this`output, nodes
      ensures Valid() && stack == old(stack) && output == old(output) - 1
      ensures
        var q := Quantify(pattern, old(sp), [old(Trees())[stack - 1]], nmin, nmax);
        sp == q.0 && Trees() == old(Trees())[..stack - 1] + q.1
    {
      var greedy := true;
      if CharAt(pattern, sp) == '?' {
        sp := sp + 1;
        greedy := false;
      }
      assert Trees() == old(Trees());
      PushQuantifier(nmin, nmax, greedy);
    }

    // ----- Patterns -----

    method PushLeaf(c: Cell, ghost trees: seq<Node>, ghost items: seq<Node>, ghost leaf: Node)
      requires Valid() && stack < output && Trees() == trees + FoldAll(items)
      requires c.CellEpsilon? || c.CellCharacter? || c.CellAny? || c.CellBegin? || c.CellEnd?
      requires Fold(leaf) == leaf && (ChildrenIn(c, output, nodes.Length, |pattern|) ==> Denotes(c) == leaf)
      modifies this`stack, nodes
      ensures Valid() && stack == old(stack) + 1 && Trees() == trees + FoldAll(items + [leaf])
    {
      hide Ordered, ChildrenIn, Tree;
      LeafCell(c);
      Push(c);
      FoldAllMore(items, leaf);
    }

    /** The cases of parse_context for a character, a wildcard, an anchor or a quantifier, once the
        character has been read. `trees` is what was on the stack below `bottom`. */
    method ParseItem(ch: char, bottom: nat, ghost trees: seq<Node>, ghost items: seq<Node>)
      requires Valid() && 0 < sp <= |pattern| && ch == pattern[sp - 1]
      requires ch != ')' && ch != '|' && ch != '(' && ch != '[' && (ch == '\\' ==> sp < |pattern|)
      requires |trees| == bottom <= stack && Trees() == trees + FoldAll(items)
      requires nodes.Length == 2 * |pattern| && Weight() <= 2 * (sp - 1)
      modifies this`sp, this`stack, this`output, nodes
      ensures Valid() && bottom < stack
      ensures
        var r := Item(pattern, old(sp) - 1, items);
        sp == r.0 && Trees() == trees + FoldAll(r.1)
      ensures Weight() <= old(Weight()) + 2 * (sp - old(sp) + 1)
    {
      hide Ordered, ChildrenIn, Tree, FoldAll, Fold, Interval, Quantify;
      FoldLeaves();
      ghost var i := sp - 1;
      assert |FoldAll(items)| == |items| by { FoldAllSize(items); }
      if ch == '\\' {
        var c := CharAt(pattern, sp);
        sp := sp + 1;
        LeafCell(CellCharacter(c));
        PushLeaf(CellCharacter(c), trees, items, Character(c));
      } else if ch == '.' {
        LeafCell(CellAny);
        PushLeaf(CellAny, trees, items, AnyCharacter);
      } else if ch == '^' {
        LeafCell(CellBegin);
        PushLeaf(CellBegin, trees, items, AnchorBegin);
      } else if ch == '$' {
        LeafCell(CellEnd);
        PushLeaf(CellEnd, trees, items, AnchorEnd);
      } else {
        ParseRepeat(ch, bottom, trees, items);
      }
      assert |FoldAll(Item(pattern, i, items).1)| == |Item(pattern, i, items).1| by {
        FoldAllSize(Item(pattern, i, items).1);
      }
    }

    /** A quantifier after an item, or any other character. */
    method ParseRepeat(ch: char, bottom: nat, ghost trees: seq<Node>, ghost items: seq<Node>)
      requires Valid() && 0 < sp <= |pattern| && ch == pattern[sp - 1]
      requires ch != ')' && ch != '|' && ch != '(' && ch != '[' && ch != '\\' && ch != '.' && ch != '^' && ch != '$'
      requires |trees| == bottom <= stack && Trees() == trees + FoldAll(items) && |FoldAll(items)| == |items|
      requires nodes.Length == 2 * |pattern| && Weight() <= 2 * (sp - 1)
      modifies this`sp, this`stack, this`output, nodes
      ensures Valid() && bottom < stack
      ensures
        var r := Item(pattern, old(sp) - 1, items);
        sp == r.0 && Trees() == trees + FoldAll(r.1)
      ensures Weight() <= old(Weight()) + 2 * (sp - old(sp) + 1)
    {
      hide Ordered, ChildrenIn, Tree, FoldAll, Fold, Interval, Quantify;
      FoldLeaves();
      ghost var i := sp - 1;
      if stack != bottom && (ch == '?' || ch == '*' || ch == '+') {
        var nmin, nmax := if ch == '+' then 1 else 0, if ch == '?' then 1 else -1;
        FoldQuantify(pattern, sp, trees, items, nmin, nmax);
        PushGreedy(nmin, nmax);
      } else {
        var ok := false;
        if stack != bottom && ch == '{' {
          if Interval(pattern, sp).Some? {
            var b := Interval(pattern, sp).value;
            FoldQuantify(pattern, b.end, trees, items, b.nmin, b.nmax);
          }
          ok := ParseInterval();
        }
        if !ok {
          LeafCell(CellCharacter(ch));
          PushLeaf(CellCharacter(ch), trees, items, Character(ch));
        }
      }
      assert |FoldAll(Item(pattern, i, items).1)| == |Item(pattern, i, items).1| by {
        FoldAllSize(Item(pattern, i, items).1);
      }
    }

    /** The slack of a result: an empty alternative at the end of the pattern is a node for which no
        character was read. */
    ghost function Slack(end: nat, tree: Node): nat
    {
      if tree.Epsilon? && end == |pattern| + 1 then 2 else 0
    }

    /** What a call of parse_context leaves behind, given the outcome of the reference parse. */
    ghost predicate Finished(r: Status, outcome: Parse, trees: seq<Node>, weight: int, from: nat)
      reads this, nodes
    {
      && Valid()
      && match outcome
         case Done(end, tree) =>
           && r == Parsed && sp == end && Trees() == trees + [Fold(tree)]
           && Weight() <= weight + 2 * ((if end <= |pattern| then end else |pattern|) - from) + Slack(end, Fold(tree))
         case Bad => r == Null
         case Beyond => r == OutOfBounds
    }

    /** parse_context: leaves the folded tree of the reference parse on the stack. The two ends of the
        buffer never meet. */
    method Parse(depth: nat) returns (r: Status)
      requires Valid() && sp <= |pattern| && nodes.Length == 2 * |pattern| && Weight() <= 2 * sp
      requires depth == 0 ==> stack > 0 || sp < |pattern|
      modifies this`sp, this`stack, this`output, nodes
      ensures Finished(r, ParseFrom(pattern, old(sp), depth, []), old(Trees()), old(Weight()), old(sp))
      decreases |pattern| - sp, 1
    {
      hide ParseContext.Trees, ParseFrom, Ordered, ChildrenIn, Tree, FoldAll, Fold, Item, ClassNode, Concat;
      var bottom := stack;
      ghost var trees := Trees();
      ghost var items: seq<Node> := [];
      FoldAllNone(trees);
      while true
        invariant old(sp) <= sp <= |pattern| && Valid() && |trees| == bottom <= stack
        invariant Trees() == trees + FoldAll(items)
        invariant ParseFrom(pattern, old(sp), depth, []) == ParseFrom(pattern, sp, depth, items)
        invariant Weight() <= old(Weight()) + 2 * (sp - old(sp))
        invariant stack == bottom ==> sp == old(sp)
        decreases |pattern| - sp
      {
        ghost var i := sp;
        ParseFromStep(pattern, i, depth, items);
        var ch := CharAt(pattern, sp);
        sp := sp + 1;
        if ch == NUL || ch == ')' {
          if (ch == NUL) != (depth == 0) {
            return Null;
          }
          CloseBranch(bottom, trees, items);
          return Parsed;
        } else if ch == '|' {
          r := ParseAlternation(depth, bottom, trees, items);
          return;
        } else if ch == '\\' && sp == |pattern| {
          return OutOfBounds;
        } else {
          r := ParsePart(ch, depth, bottom, trees, items);
          if r != Parsed {
            return;
          }
          items := More(pattern, i, depth, items).1;
        }
      }
    }

    /** A group, a class or an item: what it adds to the alternative being read. */
    method ParsePart(ch: char, depth: nat, bottom: nat, ghost trees: seq<Node>, ghost items: seq<Node>)
      returns (r: Status)
      requires Valid() && 0 < sp <= |pattern| && ch == pattern[sp - 1]
      requires ch != ')' && ch != '|' && (ch == '\\' ==> sp < |pattern|)
      requires |trees| == bottom <= stack && Trees() == trees + FoldAll(items)
      requires nodes.Length == 2 * |pattern| && Weight() <= 2 * (sp - 1)
      modifies this`sp, this`stack, this`output, nodes
      ensures Valid()
      ensures
        var m := More(pattern, old(sp) - 1, depth, items);
        match m.0
        case Done(end, _) =>
          && r == Parsed && sp == end <= |pattern| && bottom < stack && Trees() == trees + FoldAll(m.1)
          && Weight() <= old(Weight()) + 2 * (end - old(sp) + 1)
        case Bad => r == Null
        case Beyond => r == OutOfBounds
      decreases |pattern| - sp, 3
    {
      hide ParseContext.Trees, ParseFrom, Ordered, ChildrenIn, Tree, FoldAll, Fold, Item, ClassNode, Concat;
      if ch == '(' {
        r := ParseCapture(depth, trees, items);
      } else if ch == '[' {
        r := ParseClass(trees, items);
      } else {
        ParseItem(ch, bottom, trees, items);
        r := Parsed;
      }
    }

    /** The end of an alternative. */
    method CloseBranch(bottom: nat, ghost trees: seq<Node>, ghost items: seq<Node>)
      requires Valid() && |trees| == bottom <= stack && Trees() == trees + FoldAll(items)
      requires if stack == bottom then Weight() < nodes.Length + bottom else Weight() <= nodes.Length + bottom + 1
      modifies this`stack, this`output, nodes
      ensures Valid() && stack == bottom + 1 && Trees() == trees + [Fold(Concat(items))]
      ensures Weight() == if old(stack) == bottom then old(Weight()) + 2 else old(Weight())
      ensures old(stack) == bottom ==> Fold(Concat(items)) == Epsilon
    {
      hide Ordered, ChildrenIn, Tree;
      FoldConcat(items);
      assert Trees()[bottom..] == FoldAll(items) && Trees()[..bottom] == trees;
      Concatenate(bottom);
    }

    /** The case of a group. */
    method ParseCapture(depth: nat, ghost trees: seq<Node>, ghost items: seq<Node>) returns (r: Status)
      requires Valid() && 0 < sp <= |pattern| && nodes.Length == 2 * |pattern| && Weight() <= 2 * (sp - 1)
      requires Trees() == trees + FoldAll(items)
      modifies this`sp, this`stack, this`output, nodes
      ensures Valid()
      ensures
        match ParseFrom(pattern, old(sp), depth + 1, [])
        case Done(end, tree) =>
          && r == Parsed && sp == end <= |pattern| && stack == old(stack) + 1
          && Trees() == trees + FoldAll(items + [Capture(tree)])
          && Weight() <= old(Weight()) + 2 * (end - old(sp)) + 1
        case Bad => r == Null
        case Beyond => r == OutOfBounds
      decreases |pattern| - sp, 2
    {
      hide ParseContext.Trees, ParseFrom, Ordered, ChildrenIn, Tree, FoldAll, Fold;
      ghost var outcome := ParseFrom(pattern, sp, depth + 1, []);
      r := Parse(depth + 1);
      if r == Parsed {
        PushCapture();
        FoldCapture(items, outcome.tree);
      }
    }

    /** The case of a class. */
    method ParseClass(ghost trees: seq<Node>, ghost items: seq<Node>) returns (r: Status)
      requires Valid() && sp <= |pattern| && stack < output && Trees() == trees + FoldAll(items)
      modifies this`sp, this`stack, nodes
      ensures Valid()
      ensures
        match ClassNode(pattern, old(sp))
        case Done(end, node) =>
          r == Parsed && sp == end && stack == old(stack) + 1 && Trees() == trees + FoldAll(items + [node])
        case Bad => r == Null
        case Beyond => r == OutOfBounds
    {
      hide Ordered, ChildrenIn, Tree, FoldAll, ClassScan;
      ghost var outcome := ClassNode(pattern, sp);
      r := ParseCharClass();
      if r == Parsed {
        FoldAllMore(items, outcome.tree);
        assert Fold(outcome.tree) == outcome.tree;
      }
    }

    /** The case of an alternation, once the bar has been read. */
    method ParseAlternation(depth: nat, bottom: nat, ghost trees: seq<Node>, ghost items: seq<Node>) returns (r: Status)
      requires Valid() && 0 < sp <= |pattern| && nodes.Length == 2 * |pattern| && Weight() <= 2 * (sp - 1)
      requires |trees| == bottom <= stack && Trees() == trees + FoldAll(items)
      modifies this`sp, this`stack, this`output, nodes
      ensures Valid()
      ensures
        match ParseFrom(pattern, old(sp), depth, [])
        case Done(end, tree) =>
          && r == Parsed && sp == end && Trees() == trees + [Fold(Alternation(Concat(items), tree))]
          && Weight() <= old(Weight()) + 2 * ((if end <= |pattern| then end else |pattern|) - old(sp)) + 2
        case Bad => r == Null
        case Beyond => r == OutOfBounds
      decreases |pattern| - sp, 2
    {
      hide ParseContext.Trees, ParseFrom, Ordered, ChildrenIn, Tree, FoldAll, Fold, Concat, FoldAlternation;
      ghost var outcome := ParseFrom(pattern, sp, depth, []);
      CloseBranch(bottom, trees, items);
      r := Parse(depth);
      if r == Parsed {
        FoldAlternationParts(Concat(items), outcome.tree);
        FoldTop();
      }
    }
  }

  /** How a call ends: with a tree on the stack, with a null result, past the terminator, or past the end
      of a buffer that has no nodes. */
  datatype Status = Parsed | Null | OutOfBounds | Overflow

  lemma ClassScanUnfold(t: string, i: nat, acc: seq<Range>)
    requires SevenBit(t) && i <= |t|
    ensures ClassScan(t, i, acc) ==
      if i == |t| then Unterminated
      else if t[i] == ']' && i > 0 then Closed(i, acc)
      else if t[i] == '\\' && i + 1 == |t| then Overrun
      else
        var k := if t[i] == '\\' then i + 2 else i + 1;
        var ch := if t[i] == '\\' then t[i + 1] else t[i];
        if k < |t| && t[k] == '-' && CharAt(t, k + 1) != ']' then
          if CharAt(t, k + 1) < ch then EmptyRange
          else ClassScan(t, k + 2, acc + [Range(ch, t[k + 1])])
        else
          ClassScan(t, k, acc + [Range(ch, ch)])
  {
  }

  lemma FoldLeaves()
    ensures Fold(AnyCharacter) == AnyCharacter && Fold(AnchorBegin) == AnchorBegin && Fold(AnchorEnd) == AnchorEnd
    ensures forall c :: Fold(Character(c)) == Character(c)
  {
  }

  lemma FoldAllSize(items: seq<Node>)
    ensures |FoldAll(items)| == |items|
  {
  }

  lemma FoldAllMore(items: seq<Node>, n: Node)
    ensures FoldAll(items + [n]) == FoldAll(items) + [Fold(n)]
  {
  }

  /** Quantifying the last item quantifies the topmost tree. */
  lemma FoldQuantify(p: string, i: nat, trees: seq<Node>, items: seq<Node>, nmin: nat, nmax: int)
    requires i <= |p| && items != []
    ensures
      var all := trees + FoldAll(items);
      var q := Quantify(p, i, items, nmin, nmax);
      && |all| == |trees| + |items|
      && var one := Quantify(p, i, [all[|all| - 1]], nmin, nmax);
      one.0 == q.0 && all[..|all| - 1] + one.1 == trees + FoldAll(q.1)
  {
    var n := |items| - 1;
    FoldAllMore(items[..n], items[n]);
    assert items == items[..n] + [items[n]];
    FoldAllMore(items[..n], Quantify(p, i, items, nmin, nmax).1[n]);
  }

  lemma FoldAllNone(trees: seq<Node>)
    ensures trees + FoldAll([]) == trees
  {
  }

  lemma FoldCapture(items: seq<Node>, n: Node)
    ensures FoldAll(items + [Capture(n)]) == FoldAll(items) + [Capture(Fold(n))]
  {
    FoldAllMore(items, Capture(n));
  }

  lemma FoldAlternationParts(a: Node, b: Node)
    ensures Fold(Alternation(a, b)) == FoldAlternation(Fold(a), Fold(b))
  {
  }

  /** What a group, a class or an item adds to the items read: where it ends, and the items then. */
  ghost function More(p: string, i: nat, depth: nat, items: seq<Node>): (r: (Parse, seq<Node>))
    requires SevenBit(p) && i < |p| && (p[i] == '\\' ==> i + 1 < |p|)
  {
    if p[i] == '(' then
      var r := ParseFrom(p, i + 1, depth + 1, []);
      (r, if r.Done? then items + [Capture(r.tree)] else items)
    else if p[i] == '[' then
      var r := ClassNode(p, i + 1);
      (r, if r.Done? then items + [r.tree] else items)
    else
      var r := Item(p, i, items);
      (Done(r.0, Epsilon), r.1)
  }

  lemma ParseFromStep(p: string, i: nat, depth: nat, items: seq<Node>)
    requires SevenBit(p) && i <= |p|
    ensures ParseFrom(p, i, depth, items) ==
      if i == |p| then
        if depth == 0 then Done(i + 1, Concat(items)) else Bad
      else if p[i] == ')' then
        if depth > 0 then Done(i + 1, Concat(items)) else Bad
      else if p[i] == '|' then
        var r := ParseFrom(p, i + 1, depth, []);
        if r.Done? then Done(r.end, Alternation(Concat(items), r.tree)) else r
      else if p[i] == '(' then
        var r := ParseFrom(p, i + 1, depth + 1, []);
        if r.Done? then ParseFrom(p, r.end, depth, items + [Capture(r.tree)]) else r
      else if p[i] == '[' then
        var r := ClassNode(p, i + 1);
        if r.Done? then ParseFrom(p, r.end, depth, items + [r.tree]) else r
      else if p[i] == '\\' && i + 1 == |p| then
        Beyond
      else
        var r := Item(p, i, items);
        ParseFrom(p, r.0, depth, r.1)
  {
  }

  /** parse_with_nodes: the result of the reference parse, with its root at the start of the buffer. For
      the empty pattern alone the buffer has no nodes, and the node for it is written past its end. */
  method ParsePattern(pattern: string) returns (r: Status, context: ParseContext)
    requires SevenBit(pattern)
    ensures context.Valid() && context.pattern == pattern
    ensures r == Overflow <==> pattern == ""
    ensures pattern != "" ==>
      match ParseFrom(pattern, 0, 0, [])
      case Done(_, tree) => r == Parsed && context.stack == 1 && context.Trees() == [Fold(tree)]
      case Bad => r == Null
      case Beyond => r == OutOfBounds
  {
    context := new ParseContext(pattern);
    if context.nodes.Length == 0 { return Overflow, context; }
    r := context.Parse(0);
  }
}
