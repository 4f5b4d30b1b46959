/** The engine as it is used (src/rufus.c:1550-1561): parse a pattern, compile the tree, run the
    program on a subject. */
module CregexEngine {
  import opened Wrappers
  import opened Cregex
  import opened CregexSemantics
  import opened CregexGrammar
  import opened CregexBacktrack
  import opened CregexPaths
  import opened CregexPriority
  import opened CregexProgram
  import opened CregexDerivation
  import opened CregexFirst
  import CregexParse
  import CregexCompile
  import CregexVm

  /** The tree of the reference parse of a pattern that is accepted. */
  ghost predicate Accepted(pattern: string, tree: Node)
    requires SevenBit(pattern)
  {
    var r := ParseFrom(pattern, 0, 0, []);
    r.Done? && r.tree == tree
  }

  /** The tree matches the span; a tree that the compiler takes to be anchored counts only at the
      start of the subject. */
  ghost predicate Hit(tree: Node, s: string, i: nat, j: nat)
    requires WellFormed(tree)
  {
    i <= j <= |s| && (NodeIsAnchored(Fold(tree)) ==> i == 0) && Matches(tree, s, i, j)
  }

  lemma HitSought(tree: Node, s: string)
    requires WellFormed(tree)
    ensures WellFormed(Fold(tree))
    ensures forall i: nat, j: nat :: Hit(tree, s, i, j) == Sought(Fold(tree), s, i, j)
  {
    FoldLanguage(tree, s);
    forall i: nat, j: nat ensures Matches(tree, s, i, j) == Matches(Fold(tree), s, i, j) {
      assert Language(tree, s)(i, j) == Language(Fold(tree), s)(i, j);
    }
  }

  /** The whole engine against the grammar and its meaning: a run succeeds exactly when the pattern
      occurs, and then reports the leftmost start and the end of a match there. */
  lemma EngineFinds(pattern: string, tree: Node, s: string, width: nat)
    requires SevenBit(pattern) && SevenBit(s) && Accepted(pattern, tree)
    ensures WellFormed(tree) && WellFormed(Fold(tree))
    ensures Search(Fold(tree), s, width).Some? <==> exists i: nat, j: nat :: Hit(tree, s, i, j)
    ensures Search(Fold(tree), s, width).Some? ==>
      exists i: nat, j: nat :: FirstHit(tree, s, Search(Fold(tree), s, width).value, i, j)
  {
    hide Search, Matches, NodeIsAnchored;
    ParseWellFormed(pattern, 0, 0, []);
    HitSought(tree, s);
    SearchDecides(Fold(tree), s, width);
    if Search(Fold(tree), s, width).Some? {
      var i, j := SearchLeftmost(Fold(tree), s, width);
      assert FirstHit(tree, s, Search(Fold(tree), s, width).value, i, j);
    }
  }

  /** The slots hold the ends of a match that starts as far left as possible. */
  ghost predicate FirstHit(tree: Node, s: string, slots: Slots, i: nat, j: nat)
    requires WellFormed(tree)
  {
    && Hit(tree, s, i, j)
    && (|slots| > 0 ==> slots[0] == Some(i))
    && (|slots| > 1 ==> slots[1] == Some(j))
    && forall h: nat, k: nat :: Hit(tree, s, h, k) ==> i <= h
  }

  /** What a run reports: the slots of the preferred path of the program of a tree, or none. */
  ghost predicate Reports(tree: Node, s: string, width: nat, found: Option<Slots>)
    requires WellFormed(tree) && SevenBit(s)
  {
    exists choices :: IsFirst(Assemble(tree), s, Config(0, 0, Blank(width)), {}, found, choices)
  }

  /** The slots are those of the match that is preferred to all others. */
  ghost predicate ReportsFirst(tree: Node, s: string, width: nat, slots: Slots)
    requires WellFormed(tree) && SevenBit(s)
  {
    exists i: nat, d :: Chosen(tree, s, width, i, d) && Follow(tree, s, d, i).Some? &&
      slots == SlotsOf(tree, s, i, d, width)
  }

  /** The tree matches somewhere. */
  ghost predicate Appears(tree: Node, s: string)
    requires WellFormed(tree)
  {
    exists i: nat, j: nat :: Occurs(tree, s, i, j)
  }

  lemma ForcedHits(tree: Node, s: string)
    requires WellFormed(tree) && SevenBit(s)
    ensures WellFormed(Fold(tree))
    ensures AnchorsForced(Fold(tree)) ==> ((exists i: nat, j: nat :: Hit(tree, s, i, j)) <==> Appears(tree, s))
  {
    hide Matches, NodeIsAnchored, StartsAnchored;
    HitSought(tree, s);
    FoldLanguage(tree, s);
    forall i: nat, j: nat ensures Matches(tree, s, i, j) == Matches(Fold(tree), s, i, j) {
      assert Language(tree, s)(i, j) == Language(Fold(tree), s)(i, j);
    }
    if AnchorsForced(Fold(tree)) {
      forall i: nat, j: nat ensures Occurs(tree, s, i, j) == Hit(tree, s, i, j) {
        if Occurs(tree, s, i, j) && NodeIsAnchored(Fold(tree)) { StartsAnchoredMatches(Fold(tree), s, i, j); }
      }
    }
  }

  lemma SearchReports(tree: Node, s: string, width: nat)
    requires WellFormed(tree) && SevenBit(s)
    ensures Reports(tree, s, width, Search(tree, s, width))
  {
    hide IsFirst, Backtrack, Assemble;
    SearchIsBacktrack(tree, s, width);
    var choices := FirstPath(Assemble(tree), s, Blank(width));
  }

  lemma SearchFirst(tree: Node, s: string, width: nat)
    requires WellFormed(tree) && SevenBit(s)
    ensures Search(tree, s, width).Some? ==> ReportsFirst(tree, s, width, Search(tree, s, width).value)
  {
    hide Search, Once, SlotsOf, Follow;
    if Search(tree, s, width).Some? { var i, d := FirstDerivation(tree, s, width); }
  }

  /** Parse, compile and run. `matched` is 1 or 0 when the pattern is accepted; it is 1 exactly when the
      pattern occurs, if its anchors are forced. The slots are those of the preferred path, and of the preferred
      match of the folded tree. */
  method Find(pattern: string, s: string, past: char, matches: array2<Option<nat>>, nmatches: nat)
    returns (r: CregexParse.Status, matched: int)
    requires SevenBit(pattern) && SevenBit(s)
    requires matches.Length0 == 1 && matches.Length1 == nmatches
    modifies matches
    ensures r == CregexParse.Overflow <==> pattern == ""
    ensures pattern != "" ==>
      match ParseFrom(pattern, 0, 0, [])
      case Bad => r == CregexParse.Null
      case Beyond => r == CregexParse.OutOfBounds
      case Done(_, tree) =>
        && r == CregexParse.Parsed && WellFormed(tree) && WellFormed(Fold(tree))
        && var width := CregexVm.Width(nmatches);
        && matched in {0, 1} && (matched == 1 <==> exists i: nat, j: nat :: Hit(tree, s, i, j))
        && (AnchorsForced(Fold(tree)) ==> (matched == 1 <==> Appears(tree, s)))
        && Reports(Fold(tree), s, width, if matched == 1 then Some(CregexVm.Row(matches, 0, width)) else None)
        && (matched == 1 ==> ReportsFirst(Fold(tree), s, width, CregexVm.Row(matches, 0, width)))
        && (matched == 1 ==>
              exists i: nat, j: nat :: FirstHit(tree, s, CregexVm.Row(matches, 0, width), i, j))
        && (matched == 0 ==> CregexVm.Row(matches, 0, width) == Blank(width))
  {
    hide ParseFrom, Search, Matches, Fold, WellFormed, Assemble, CregexVm.Row, Reports, Appears, AnchorsForced;
    hide ReportsFirst;
    var context;
    r, context := CregexParse.ParsePattern(pattern);
    matched := 0;
    if r == CregexParse.Parsed {
      var root := CregexParse.Tree(pattern, context.nodes[..], context.output, context.nodes[0]);
      ghost var tree := ParseFrom(pattern, 0, 0, []).tree;
      assert root == Fold(tree) by { assert context.Trees()[0] == root; }
      EngineFinds(pattern, tree, s, CregexVm.Width(nmatches));
      ForcedHits(tree, s);
      SearchReports(root, s, CregexVm.Width(nmatches));
      SearchFirst(root, s, CregexVm.Width(nmatches));
      SearchIsBacktrack(root, s, CregexVm.Width(nmatches));
      var program := CregexCompile.CompileNode(root);
      matched := CregexVm.Run(program[..], s, past, matches, nmatches);
    }
  }

  lemma SearchIsBacktrack(n: Node, s: string, width: nat)
    requires WellFormed(n) && SevenBit(s)
    ensures Linked(Assemble(n))
    ensures Search(n, s, width) == Backtrack(Assemble(n), s, 0, 0, Blank(width), FreshMemo(s)).found
  {
    AssembleLinked(n);
  }
}
