/** What the capture slots hold after a match (src/cregex_vm.c:85-95): for each group nothing, or the two ends
    of its last pass, which is a match of the group's own tree. */
module CregexGroups {
  import opened Wrappers
  import opened Cregex
  import opened CregexSemantics
  import opened CregexBacktrack
  import opened CregexCode
  import opened CregexDerivation
  import opened CregexWords
  import opened CregexProgram
  import opened CregexFirst

  // ----- What is saved where -----

  /** A derivation saves only to the slots of the groups that the tree numbers. */
  lemma {:induction false} CapturedKeys(n: Node, s: string, d: Derivation, nc: nat, i: nat)
    requires WellFormed(n) && Follow(n, s, d, i).Some?
    ensures nc <= CapturesAfter(n, nc)
    ensures forall k :: k in Captured(n, s, d, nc, i) ==> 2 * nc <= k < 2 * CapturesAfter(n, nc)
    decreases d
  {
    CapturesGrow(n, nc);
    match d
    case Leaf =>
    case Both(first, second) =>
      var mc := CapturesAfter(n.left, nc);
      CapturedKeys(n.left, s, first, nc, i);
      CapturedKeys(n.right, s, second, mc, Follow(n.left, s, first, i).value);
    case Either(left, chosen) =>
      var mc := CapturesAfter(n.left, nc);
      CapturesGrow(n.left, nc);
      CapturesGrow(n.right, mc);
      CapturedKeys(if left then n.left else n.right, s, chosen, if left then nc else mc, i);
    case Inner(inner) => CapturedKeys(n.captured, s, inner, nc + 1, i);
    case Several(passes) => PassesKeys(n, s, passes, nc, 0, i);
  }

  lemma {:induction false} PassesKeys(n: Node, s: string, ps: Passes, nc: nat, k: nat, i: nat)
    requires WellFormed(n) && n.Quantifier? && FollowPasses(n, s, ps, k, i).Some?
    ensures forall x :: x in CapturedPasses(n, s, ps, nc, i) ==> 2 * nc <= x < 2 * CapturesAfter(n, nc)
    decreases ps
  {
    match ps
    case Over =>
    case Pass(made, rest) =>
      CapturedKeys(n.quantified, s, made, nc, i);
      PassesKeys(n, s, rest, nc, k + 1, Follow(n.quantified, s, made, i).value);
    case Skip(rest) => PassesKeys(n, s, rest, nc, k + 1, i);
  }

  // ----- Groups -----

  /** The tree of group `g`, when the groups of `n` are numbered from `nc` on. */
  function GroupTree(n: Node, nc: nat, g: nat): (r: Node)
    requires WellFormed(n) && nc <= g < CapturesAfter(n, nc)
    ensures WellFormed(r)
  {
    match n
    case Concatenation(left, right) =>
      if g < CapturesAfter(left, nc) then GroupTree(left, nc, g) else GroupTree(right, CapturesAfter(left, nc), g)
    case Alternation(left, right) =>
      if g < CapturesAfter(left, nc) then GroupTree(left, nc, g) else GroupTree(right, CapturesAfter(left, nc), g)
    case Quantifier(_, _, _, q) => GroupTree(q, nc, g)
    case Capture(q) => if g == nc then q else GroupTree(q, nc + 1, g)
    case _ => n
  }

  /** The two slots of group `g` hold both ends of a match of its tree, or nothing. */
  ghost predicate Paired(n: Node, s: string, nc: nat, g: nat, m: map<nat, nat>)
    requires WellFormed(n) && nc <= g < CapturesAfter(n, nc)
  {
    && (2 * g in m <==> 2 * g + 1 in m)
    && (2 * g in m && 2 * g + 1 in m ==> Language(GroupTree(n, nc, g), s)(m[2 * g], m[2 * g + 1]))
  }

  lemma PairedLater(n: Node, s: string, nc: nat, g: nat, a: map<nat, nat>, b: map<nat, nat>)
    requires WellFormed(n) && nc <= g < CapturesAfter(n, nc) && Paired(n, s, nc, g, a) && Paired(n, s, nc, g, b)
    ensures Paired(n, s, nc, g, a + b)
  {
    hide GroupTree, CapturesAfter;
  }

  /** What a derivation saves to the slots of a group is a match of the group. */
  lemma {:induction false} GroupSaved(n: Node, s: string, d: Derivation, nc: nat, i: nat, g: nat)
    requires WellFormed(n) && Follow(n, s, d, i).Some? && nc <= g < CapturesAfter(n, nc)
    ensures Paired(n, s, nc, g, Captured(n, s, d, nc, i))
    decreases d, 1
  {
    match d
    case Leaf =>
    case Both(first, second) => BothSaved(n, s, d, nc, i, g);
    case Either(left, chosen) =>
      var mc := CapturesAfter(n.left, nc);
      CapturesGrow(n.left, nc);
      CapturesGrow(n.right, mc);
      var side, sc := if left then n.left else n.right, if left then nc else mc;
      CapturedKeys(side, s, chosen, sc, i);
      if left == (g < mc) { GroupSaved(side, s, chosen, sc, i, g); }
    case Inner(inner) =>
      CapturedKeys(n.captured, s, inner, nc + 1, i);
      if g == nc { FollowMatches(n.captured, s, inner, i); } else { GroupSaved(n.captured, s, inner, nc + 1, i, g); }
    case Several(passes) => PassesSaved(n, s, passes, nc, 0, i, g);
  }

  lemma {:induction false} BothSaved(n: Node, s: string, d: Derivation, nc: nat, i: nat, g: nat)
    requires WellFormed(n) && d.Both? && Follow(n, s, d, i).Some? && nc <= g < CapturesAfter(n, nc)
    ensures Paired(n, s, nc, g, Captured(n, s, d, nc, i))
    decreases d, 0
  {
    var mc, k := CapturesAfter(n.left, nc), Follow(n.left, s, d.first, i).value;
    CapturesGrow(n.left, nc);
    CapturesGrow(n.right, mc);
    CapturedKeys(n.left, s, d.first, nc, i);
    CapturedKeys(n.right, s, d.second, mc, k);
    if g < mc {
      GroupSaved(n.left, s, d.first, nc, i, g);
    } else {
      GroupSaved(n.right, s, d.second, mc, k, g);
    }
  }

  lemma {:induction false} PassesSaved(n: Node, s: string, ps: Passes, nc: nat, k: nat, i: nat, g: nat)
    requires WellFormed(n) && n.Quantifier? && FollowPasses(n, s, ps, k, i).Some? && nc <= g < CapturesAfter(n, nc)
    ensures Paired(n, s, nc, g, CapturedPasses(n, s, ps, nc, i))
    decreases ps
  {
    match ps
    case Over =>
    case Pass(made, rest) =>
      var m := Follow(n.quantified, s, made, i).value;
      GroupSaved(n.quantified, s, made, nc, i, g);
      PassesSaved(n, s, rest, nc, k + 1, m, g);
      PairedLater(n, s, nc, g, Captured(n.quantified, s, made, nc, i), CapturedPasses(n, s, rest, nc, m));
    case Skip(rest) => PassesSaved(n, s, rest, nc, k + 1, i, g);
  }

  /** After a match the two slots of a group are both empty, or hold the ends of a match of the group. */
  ghost predicate GroupHeld(n: Node, s: string, slots: Slots, g: nat)
    requires WellFormed(n) && 1 <= g < CapturesAfter(n, 1) && 2 * g + 1 < |slots|
  {
    || (slots[2 * g] == None && slots[2 * g + 1] == None)
    || (slots[2 * g].Some? && slots[2 * g + 1].Some? &&
        Language(GroupTree(n, 1, g), s)(slots[2 * g].value, slots[2 * g + 1].value))
  }

  lemma GroupsHeld(n: Node, s: string, i: nat, d: Derivation, width: nat, g: nat)
    requires WellFormed(n) && Follow(n, s, d, i).Some? && 1 <= g < CapturesAfter(n, 1) && 2 * g + 1 < width
    ensures |SlotsOf(n, s, i, d, width)| == width && GroupHeld(n, s, SlotsOf(n, s, i, d, width), g)
  {
    hide Captured, Follow, GroupTree;
    GroupSaved(n, s, d, 1, i, g);
    CapturedKeys(n, s, d, 1, i);
  }

  /** The groups of the match that a run reports. */
  lemma GroupsReported(n: Node, s: string, width: nat, g: nat)
    requires WellFormed(n) && SevenBit(s) && Search(n, s, width).Some?
    requires 1 <= g < CapturesAfter(n, 1) && 2 * g + 1 < width
    ensures GroupHeld(n, s, Search(n, s, width).value, g)
  {
    hide Search, GroupHeld, SlotsOf, Chosen;
    var i, d := FirstDerivation(n, s, width);
    ChosenCandidate(n, s, width, i, d);
    GroupsHeld(n, s, i, d, width, g);
  }

  lemma ChosenCandidate(n: Node, s: string, width: nat, i: nat, d: Derivation)
    requires WellFormed(n) && SevenBit(s) && Chosen(n, s, width, i, d)
    ensures Candidate(n, s, i, d)
  {
  }
}
